/**
 Properties of the spring law: what one step reads, how the ends of the chain
 behave, what a zero time step does, how far a single disturbance travels in
 one step, and which states (at rest, mirror-symmetric) the law preserves.
 */
module ChainLemmas {
  import opened Chain

  /** Snapshot discipline: the new speed and displacement of point `i` are
      determined by the old displacements of `i - 1`, `i`, `i + 1` and the old
      speed of `i`. Two states that agree there step to the same values at `i`,
      whatever they hold anywhere else. */
  lemma NextReadsOnlyNeighbourhood(s: State, t: State, k: real, dt: real, i: nat)
    requires s.Valid() && t.Valid() && |s.ys| == |t.ys| && i < |s.ys|
    requires s.speeds[i] == t.speeds[i]
    requires forall j :: 0 <= j < |s.ys| && i <= j + 1 && j <= i + 1 ==> s.ys[j] == t.ys[j]
    ensures Next(s, k, dt).speeds[i] == Next(t, k, dt).speeds[i]
    ensures Next(s, k, dt).ys[i] == Next(t, k, dt).ys[i]
  {
    if i > 0 {
      assert s.ys[i - 1] == t.ys[i - 1];
    }
    if i < |s.ys| - 1 {
      assert s.ys[i + 1] == t.ys[i + 1];
    }
    assert s.ys[i] == t.ys[i];
  }

  /** The ends of the chain are tied to a virtual neighbour at rest: the end
      point feels twice its own displacement minus its one real neighbour's. A
      chain of one point feels twice its own displacement. */
  lemma EndPoints(s: State, k: real, dt: real)
    requires s.Valid() && |s.ys| >= 1
    ensures |s.ys| == 1 ==>
      Next(s, k, dt).speeds[0] == s.speeds[0] - k * (2.0 * s.ys[0]) * dt
    ensures |s.ys| >= 2 ==>
      Next(s, k, dt).speeds[0] == s.speeds[0] - k * (2.0 * s.ys[0] - s.ys[1]) * dt
    ensures |s.ys| >= 2 ==>
      var n := |s.ys|;
      Next(s, k, dt).speeds[n - 1] == s.speeds[n - 1] - k * (2.0 * s.ys[n - 1] - s.ys[n - 2]) * dt
  {
  }

  /** The boundary is fixed, not free: when the whole chain is still and
      uniformly lifted to `c`, no interior point feels a force, but both end
      points are pulled back towards rest by `k * c * dt`. */
  lemma UniformLiftPullsOnlyTheEnds(s: State, k: real, dt: real, c: real)
    requires Still(s) && |s.ys| >= 2
    requires forall i :: 0 <= i < |s.ys| ==> s.ys[i] == c
    ensures Next(s, k, dt).speeds[0] == -k * c * dt
    ensures Next(s, k, dt).speeds[|s.ys| - 1] == -k * c * dt
    ensures forall i :: 0 < i < |s.ys| - 1 ==> Next(s, k, dt).speeds[i] == 0.0
  {
    var n := |s.ys|;
    assert s.ys[0] == c && s.ys[1] == c;
    assert s.ys[n - 1] == c && s.ys[n - 2] == c;
    forall i | 0 < i < n - 1
      ensures Next(s, k, dt).speeds[i] == 0.0
    {
      assert s.ys[i - 1] == c && s.ys[i] == c && s.ys[i + 1] == c;
    }
  }

  /** With `dt = 0` the springs do nothing: every speed is kept and every
      displacement advances by its speed. */
  lemma ZeroTimeStep(s: State, k: real)
    requires s.Valid()
    ensures Next(s, k, 0.0).speeds == s.speeds
    ensures forall i :: 0 <= i < |s.ys| ==> Next(s, k, 0.0).ys[i] == s.ys[i] + s.speeds[i]
  {
  }

  /** Hence a zero time step from a still chain changes nothing. This is the
      first frame of the animation, which is stepped with `dt = 0`. */
  lemma ZeroTimeStepFromStill(s: State, k: real)
    requires Still(s)
    ensures Next(s, k, 0.0) == s
  {
    ZeroTimeStep(s, k);
    var r := Next(s, k, 0.0);
    assert r.ys == s.ys;
  }

  /** Distances seen by a point of a still chain displaced only at `c`: the
      displaced point sees its own displacement on both sides, its neighbours
      see minus that displacement on the side facing it and nothing on the
      other, and every other point sees nothing. */
  lemma DisturbanceDistances(s: State, c: nat, i: nat)
    requires SingleDisturbance(s, c) && i < |s.ys|
    ensures i == c ==> LeftDist(s.ys, i) == s.ys[c] && RightDist(s.ys, i) == s.ys[c]
    ensures i + 1 == c ==> LeftDist(s.ys, i) == 0.0 && RightDist(s.ys, i) == -s.ys[c]
    ensures i == c + 1 ==> LeftDist(s.ys, i) == -s.ys[c] && RightDist(s.ys, i) == 0.0
    ensures i + 2 <= c || c + 2 <= i ==> LeftDist(s.ys, i) == 0.0 && RightDist(s.ys, i) == 0.0
  {
    if i > 0 && i - 1 != c { assert s.ys[i - 1] == 0.0; }
    if i < |s.ys| - 1 && i + 1 != c { assert s.ys[i + 1] == 0.0; }
    if i != c { assert s.ys[i] == 0.0; }
  }

  /** Locality: from a still chain displaced only at `c`, one step moves exactly
      `c` and its direct neighbours. Point `c` is pulled back by `2 * k * y * dt`,
      each neighbour is pulled towards it by `k * y * dt`, and every point at
      distance two or more stays at rest. This holds at the ends of the chain
      too, because of the virtual resting neighbour. */
  lemma SingleDisturbanceSpreadsOnePoint(s: State, k: real, dt: real, c: nat)
    requires SingleDisturbance(s, c)
    ensures var r := Next(s, k, dt);
      && r.speeds[c] == -2.0 * k * s.ys[c] * dt
      && r.ys[c] == s.ys[c] + r.speeds[c]
    ensures var r := Next(s, k, dt);
      forall i :: 0 <= i < |s.ys| && (i + 1 == c || i == c + 1) ==>
        r.speeds[i] == k * s.ys[c] * dt && r.ys[i] == r.speeds[i]
    ensures var r := Next(s, k, dt);
      forall i :: 0 <= i < |s.ys| && (i + 2 <= c || c + 2 <= i) ==>
        r.speeds[i] == 0.0 && r.ys[i] == 0.0
  {
    var n := |s.ys|;
    var r := Next(s, k, dt);
    var y := s.ys[c];
    DisturbanceDistances(s, c, c);
    assert r.speeds[c] == 0.0 - k * (y + y) * dt;
    forall i | 0 <= i < n && (i + 1 == c || i == c + 1)
      ensures r.speeds[i] == k * y * dt && r.ys[i] == r.speeds[i]
    {
      DisturbanceDistances(s, c, i);
      assert s.ys[i] == 0.0 && s.speeds[i] == 0.0;
      assert LeftDist(s.ys, i) + RightDist(s.ys, i) == -y;
    }
    forall i | 0 <= i < n && (i + 2 <= c || c + 2 <= i)
      ensures r.speeds[i] == 0.0 && r.ys[i] == 0.0
    {
      DisturbanceDistances(s, c, i);
      assert s.ys[i] == 0.0 && s.speeds[i] == 0.0;
    }
  }

  /** A chain at rest stays at rest, whatever the spring constant and step. */
  lemma AtRestIsFixedPoint(s: State, k: real, dt: real)
    requires AtRest(s)
    ensures Next(s, k, dt) == s
  {
    var r := Next(s, k, dt);
    forall i | 0 <= i < |s.ys|
      ensures r.speeds[i] == s.speeds[i] && r.ys[i] == s.ys[i]
    {
      if i > 0 { assert s.ys[i - 1] == 0.0; }
      if i < |s.ys| - 1 { assert s.ys[i + 1] == 0.0; }
    }
    assert r.ys == s.ys;
    assert r.speeds == s.speeds;
  }

  /** ... and so it stays at rest over any number of steps. */
  lemma {:induction false} RunFromRest(s: State, k: real, dts: seq<real>)
    requires AtRest(s)
    ensures Run(s, k, dts) == s
    decreases |dts|
  {
    if |dts| > 0 {
      RunFromRest(s, k, dts[..|dts| - 1]);
      AtRestIsFixedPoint(s, k, dts[|dts| - 1]);
    }
  }

  /** Mirror-image points feel mirror-image distances: the left distance of `i`
      is the right distance of its mirror point. */
  lemma MirrorDistances(ys: seq<real>, i: nat)
    requires Mirror(ys) && i < |ys|
    ensures LeftDist(ys, i) == RightDist(ys, |ys| - 1 - i)
  {
    var n := |ys|;
    assert ys[n - 1 - i] == ys[i];
    if i > 0 {
      assert ys[n - 1 - (i - 1)] == ys[i - 1];
    }
  }

  /** Mirror symmetry: a chain whose displacements and speeds are symmetric
      about its centre is still symmetric after one step. */
  lemma NextPreservesSymmetry(s: State, k: real, dt: real)
    requires Symmetric(s)
    ensures Symmetric(Next(s, k, dt))
  {
    var n := |s.ys|;
    var r := Next(s, k, dt);
    forall i | 0 <= i < n
      ensures r.speeds[i] == r.speeds[n - 1 - i] && r.ys[i] == r.ys[n - 1 - i]
    {
      var j := n - 1 - i;
      MirrorDistances(s.ys, i);
      MirrorDistances(s.ys, j);
      assert n - 1 - j == i;
      assert s.speeds[i] == s.speeds[j];
      assert s.ys[i] == s.ys[j];
    }
  }

  /** ... and so over any number of steps. */
  lemma {:induction false} RunPreservesSymmetry(s: State, k: real, dts: seq<real>)
    requires Symmetric(s)
    ensures Symmetric(Run(s, k, dts))
    decreases |dts|
  {
    if |dts| > 0 {
      RunPreservesSymmetry(s, k, dts[..|dts| - 1]);
      NextPreservesSymmetry(Run(s, k, dts[..|dts| - 1]), k, dts[|dts| - 1]);
    }
  }

  /** A worked step: five still points, the middle one lifted to 5, spring
      constant 1/1000 and a 16 ms frame. The middle point starts falling,
      its neighbours start rising towards it at half that speed, and the
      end points do not move. */
  lemma FivePointStep()
    ensures var r := Next(State([0.0, 0.0, 5.0, 0.0, 0.0], [0.0, 0.0, 0.0, 0.0, 0.0]), 0.001, 16.0);
      && r.speeds == [0.0, 0.08, -0.16, 0.08, 0.0]
      && r.ys == [0.0, 0.08, 4.84, 0.08, 0.0]
  {
    var s := State([0.0, 0.0, 5.0, 0.0, 0.0], [0.0, 0.0, 0.0, 0.0, 0.0]);
    var r := Next(s, 0.001, 16.0);
    assert r.speeds == [NextSpeed(s, 0.001, 16.0, 0), NextSpeed(s, 0.001, 16.0, 1),
                        NextSpeed(s, 0.001, 16.0, 2), NextSpeed(s, 0.001, 16.0, 3),
                        NextSpeed(s, 0.001, 16.0, 4)];
  }
}
