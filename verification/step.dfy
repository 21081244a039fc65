/**
 The step of the animation as the program performs it: an array of points
 updated in place by two loops. The first loop computes each point's new
 speed and stages its next displacement in `newY`, reading displacements only;
 the second loop copies every `newY` into `y`. Each method is checked against
 the pure law `Chain.Next`.
 */
module Step {
  import opened Chain
  import opened Points

  /** Point `i` after the first loop has visited it: new speed, next
      displacement staged, displacement itself untouched. */
  function Staged(pts: seq<SurfacePoint>, k: real, dt: real, i: nat): SurfacePoint
    requires i < |pts|
  {
    var speed := NextSpeed(StateOf(pts), k, dt, i);
    pts[i].(speed := speed, newY := pts[i].y + speed)
  }

  /** One visit of the first loop, given the two distances it read. */
  function Visit(point: SurfacePoint, leftDist: real, rightDist: real, k: real, dt: real): SurfacePoint {
    var speed := point.speed - k * (leftDist + rightDist) * dt;
    point.(speed := speed, newY := point.y + speed)
  }

  /** A visit that read the displacements from before the step stages point
      `i` as the law says. */
  lemma VisitIsStaged(pts: seq<SurfacePoint>, k: real, dt: real, i: nat, leftDist: real, rightDist: real)
    requires i < |pts|
    requires leftDist == (if i > 0 then pts[i].y - pts[i - 1].y else pts[i].y)
    requires rightDist == (if i < |pts| - 1 then pts[i].y - pts[i + 1].y else pts[i].y)
    ensures Visit(pts[i], leftDist, rightDist, k, dt) == Staged(pts, k, dt, i)
  {
    var s := StateOf(pts);
    assert LeftDist(s.ys, i) == leftDist;
    assert RightDist(s.ys, i) == rightDist;
  }

  /** After both loops every point is its staged version with `newY` copied
      into `y`. Then the chain has the same points, each keeping its `id` and
      `x`, nothing is left staged, and displacements and speeds are those of
      the pure law applied to the chain before the step. */
  lemma CommittedIsNext(pts: seq<SurfacePoint>, r: seq<SurfacePoint>, k: real, dt: real)
    requires |r| == |pts|
    requires forall i :: 0 <= i < |r| ==> r[i] == Staged(pts, k, dt, i).(y := Staged(pts, k, dt, i).newY)
    ensures |r| == |pts|
    ensures forall i :: 0 <= i < |r| ==> r[i].id == pts[i].id && r[i].x == pts[i].x && r[i].newY == r[i].y
    ensures StateOf(r) == Next(StateOf(pts), k, dt)
  {
    var s := StateOf(r);
    var t := Next(StateOf(pts), k, dt);
    forall i | 0 <= i < |r|
      ensures s.ys[i] == t.ys[i] && s.speeds[i] == t.speeds[i]
    {
      assert r[i] == Staged(pts, k, dt, i).(y := Staged(pts, k, dt, i).newY);
    }
    assert s.ys == t.ys;
    assert s.speeds == t.speeds;
  }

  /** The first loop of `step(dt)`: walks the points left to right, updating
      each one in place. It reads the left neighbour after that neighbour was
      visited, but a visit never changes `y`, so every distance is taken from
      the displacements before the step. */
  method Stage(pts: seq<SurfacePoint>, k: real, dt: real) returns (staged: seq<SurfacePoint>)
    ensures |staged| == |pts|
    ensures forall j :: 0 <= j < |staged| ==> staged[j] == Staged(pts, k, dt, j)
  {
    var a := new SurfacePoint[|pts|](i requires 0 <= i < |pts| => pts[i]);
    var i := 0;
    while i < a.Length
      invariant 0 <= i <= a.Length == |pts|
      invariant forall j :: 0 <= j < a.Length ==> a[j].y == pts[j].y
      invariant forall j :: 0 <= j < i ==> a[j] == Staged(pts, k, dt, j)
      invariant forall j :: i <= j < a.Length ==> a[j] == pts[j]
    {
      var point := a[i];
      var leftDist := if i > 0 then point.y - a[i - 1].y else point.y;
      var rightDist := if i < a.Length - 1 then point.y - a[i + 1].y else point.y;
      VisitIsStaged(pts, k, dt, i, leftDist, rightDist);
      a[i] := Visit(point, leftDist, rightDist, k, dt);
      i := i + 1;
    }
    staged := a[..];
  }

  /** The second loop of `step(dt)`: every staged `newY` becomes the
      displacement, and nothing else changes. */
  method Commit(staged: seq<SurfacePoint>) returns (r: seq<SurfacePoint>)
    ensures |r| == |staged|
    ensures forall j :: 0 <= j < |r| ==> r[j] == staged[j].(y := staged[j].newY)
  {
    r := staged;
    var i := 0;
    while i < |r|
      invariant 0 <= i <= |r| == |staged|
      invariant forall j :: 0 <= j < i ==> r[j] == staged[j].(y := staged[j].newY)
      invariant forall j :: i <= j < |r| ==> r[j] == staged[j]
    {
      r := r[i := r[i].(y := r[i].newY)];
      i := i + 1;
    }
  }

  /** `step(dt)`: stage every point, then commit. */
  method Step(pts: seq<SurfacePoint>, k: real, dt: real) returns (r: seq<SurfacePoint>)
    ensures |r| == |pts|
    ensures forall i :: 0 <= i < |r| ==> r[i].id == pts[i].id && r[i].x == pts[i].x && r[i].newY == r[i].y
    ensures StateOf(r) == Next(StateOf(pts), k, dt)
  {
    var staged := Stage(pts, k, dt);
    r := Commit(staged);
    CommittedIsNext(pts, r, k, dt);
  }

  /** `order` lists every index of a chain of `n` points exactly once. */
  predicate IsVisitOrder(order: seq<int>, n: nat) {
    && |order| == n
    && (forall t :: 0 <= t < |order| ==> 0 <= order[t] < n)
    && (forall t, u :: 0 <= t < u < |order| ==> order[t] != order[u])
    && (forall j :: 0 <= j < n ==> j in order)
  }

  /** The first loop run over the points in the given visit order instead of
      left to right. Each visit still reads only displacements, which no
      visit changes, so each point is staged exactly as in `Stage`. */
  method StageInOrder(pts: seq<SurfacePoint>, k: real, dt: real, order: seq<int>) returns (staged: seq<SurfacePoint>)
    requires IsVisitOrder(order, |pts|)
    ensures |staged| == |pts|
    ensures forall j :: 0 <= j < |staged| ==> staged[j] == Staged(pts, k, dt, j)
  {
    var a := new SurfacePoint[|pts|](i requires 0 <= i < |pts| => pts[i]);
    var t := 0;
    ghost var visited: set<int> := {};
    while t < |order|
      invariant 0 <= t <= |order| == a.Length == |pts|
      invariant visited == set u | 0 <= u < t :: order[u]
      invariant forall j :: 0 <= j < a.Length ==> a[j].y == pts[j].y
      invariant forall j :: 0 <= j < a.Length && j in visited ==> a[j] == Staged(pts, k, dt, j)
      invariant forall j :: 0 <= j < a.Length && j !in visited ==> a[j] == pts[j]
    {
      var i := order[t];
      assert i !in visited;
      var point := a[i];
      var leftDist := if i > 0 then point.y - a[i - 1].y else point.y;
      var rightDist := if i < a.Length - 1 then point.y - a[i + 1].y else point.y;
      VisitIsStaged(pts, k, dt, i, leftDist, rightDist);
      a[i] := Visit(point, leftDist, rightDist, k, dt);
      visited := visited + {i};
      t := t + 1;
    }
    forall j | 0 <= j < a.Length
      ensures j in visited
    {
      assert j in order;
      var u :| 0 <= u < |order| && order[u] == j;
    }
    staged := a[..];
  }

  /** Order independence: a step whose first loop visits the points in ANY
      order, each once, has the same result as the left-to-right step. */
  method StepInOrder(pts: seq<SurfacePoint>, k: real, dt: real, order: seq<int>) returns (r: seq<SurfacePoint>)
    requires IsVisitOrder(order, |pts|)
    ensures |r| == |pts|
    ensures forall i :: 0 <= i < |r| ==> r[i].id == pts[i].id && r[i].x == pts[i].x && r[i].newY == r[i].y
    ensures StateOf(r) == Next(StateOf(pts), k, dt)
  {
    var staged := StageInOrder(pts, k, dt, order);
    r := Commit(staged);
    CommittedIsNext(pts, r, k, dt);
  }

  /** The animation calls `step` once per frame with the time elapsed since
      the previous frame; `dts` lists those elapsed times. Over any number of
      frames the chain keeps its points, their ids and their positions along
      the surface, and its motion is the pure law run frame by frame. */
  method Simulate(pts: seq<SurfacePoint>, k: real, dts: seq<real>) returns (r: seq<SurfacePoint>)
    ensures |r| == |pts|
    ensures forall i :: 0 <= i < |r| ==> r[i].id == pts[i].id && r[i].x == pts[i].x
    ensures StateOf(r) == Run(StateOf(pts), k, dts)
  {
    r := pts;
    var t := 0;
    while t < |dts|
      invariant 0 <= t <= |dts|
      invariant |r| == |pts|
      invariant forall i :: 0 <= i < |r| ==> r[i].id == pts[i].id && r[i].x == pts[i].x
      invariant StateOf(r) == Run(StateOf(pts), k, dts[..t])
    {
      assert dts[..t + 1][..t] == dts[..t];
      r := Step(r, k, dts[t]);
      t := t + 1;
    }
    assert dts[..t] == dts;
  }
}
