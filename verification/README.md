# Water surface: a chain of springs

This project models the physics of the water-surface animation in Dafny. The
surface is a chain of points. Each point carries an `id`, a horizontal
position `x`, a vertical displacement `y`, a vertical `speed` and a staged
next displacement `newY`. Each point is tied by springs to its left and right
neighbours.

- `Points.Initialize` builds `n` points `spacing` apart. It then lifts the
  middle point `floor(n / 2)` by 5.
- `Step.Step` is one call of `step(dt)`. Its first loop, `Step.Stage`,
  updates each speed by `-K * (leftDist + rightDist) * dt` and stages
  `newY = y + speed`. Its second loop, `Step.Commit`, copies every `newY` into
  `y`.
- `Chain.Next` is the same step as a pure function on sequences of reals: the
  displacements `ys` and the speeds `speeds`. `Chain.Run` applies one `Next`
  per frame duration. Every imperative method is proved equal to these
  definitions. The properties are proved about them in `ChainLemmas`.

JavaScript numbers are modelled as `real`. The spring constant and the point
spacing are parameters. The program's values (99 points, spacing 5,
K = 1/1000, disturbance 5) are the constants in `Points`.

Two points about the ends of the chain and the step itself:

- **The boundary is fixed, not free.** At index 0 the program uses the
  point's own `y` as the left distance, and it does the same on the right of
  the last point (index.js:72-73). So an end point acts as if tied to a
  virtual neighbour resting at 0. The missing side does contribute; this is
  not a free end, where it would contribute nothing. The model follows the
  code. `ChainLemmas.EndPoints` and
  `ChainLemmas.UniformLiftPullsOnlyTheEnds` state the difference.
- **The position update is not scaled by `dt`** (index.js:76). It is
  modelled exactly as written.

The source never checks `dt`, so the model accepts any real `dt`, negative
ones included. Creating a chain of fewer than one point fails in the source:
`pointsData[floor(n/2)]` is then undefined, and setting its `y` throws. The
model returns `Err(NoMiddlePoint)` instead. The source does not validate the
spacing, so the model puts no condition on it.

Files: `chain.dfy` (module `Chain`: the law), `chain_lemmas.dfy`
(`ChainLemmas`: its properties), `points.dfy` (`Points`: the point record,
creation and properties of the created chain) and `step.dfy` (`Step`: the
two-loop step and the per-frame driver).

## Model

| member | source | states |
|---|---|---|
| Chain.Next | index.js:69-77 | Definition of one step on displacements and speeds. Its contract only says that each point keeps one displacement and one speed. What the step computes is stated by the `ChainLemmas` lemmas and by `Step.Step`, which is proved equal to it. |
| Chain.Run | index.js:66-83 | One step per listed frame duration, taken in order. Its contract only says that the chain keeps its length. |
| Points.Initialize | index.js:43-50 | Creation succeeds exactly when `n >= 1`; otherwise there is no middle point to disturb and it fails. On success there are `n` points. Point `i` has id `i`, `x = spacing * (i + 1)`, speed 0, newY 0, and `y = 0`, except point `floor(n/2)`, which has `y = 5`. |
| Points.InitialChainIsEvenlySpaced | index.js:45-46 | For positive spacing, consecutive points are exactly `spacing` apart and `x` strictly increases along the chain. |
| Points.InitialChainIsSingleDisturbance | index.js:46-50 | The created chain is still. Its only displaced point is `floor(n/2)`, with displacement 5. |
| Points.InitialChainIsSymmetric | index.js:45-50 | With an odd number of points, the created displacements and speeds read the same from both ends. |
| Points.FirstFrameIsNoOp | index.js:75-76 | The first frame steps the created chain with `dt = 0`. That step leaves every displacement and speed as created. |
| Points.InitialChainStaysSymmetric | index.js:66-83 | With an odd number of points, the surface stays mirror-symmetric after any sequence of steps of any durations. |
| Points.AppSurfaceStaysSymmetric | index.js:16-19 | For the program's constants (99 points, spacing 5, K = 1/1000), point 49 holds the disturbance and the surface stays mirror-symmetric frame after frame. |
| Step.VisitIsStaged | index.js:72-76 | A visit of the first loop that reads the pre-step displacements produces the law's new speed and stages `y + speed`. It leaves `y` unchanged. |
| Step.Stage | index.js:69-77 | The first loop, which updates points in place from left to right, leaves every point staged as the law says: new speed, `newY = y + speed`, `y` itself unchanged. So every distance it reads comes from the pre-step displacements, even the left neighbour it has already visited. |
| Step.Commit | index.js:80-82 | The second loop replaces every point's `y` by its `newY` and changes nothing else. |
| Step.CommittedIsNext | index.js:80-82 | Once every staged point is committed, the chain keeps its length, ids and positions. Its displacements and speeds are then exactly those of the law applied to the chain before the step. |
| Step.Step | index.js:66-83 | After the two loops, the chain has the same number of points, each point keeps its `id` and `x`, and `newY == y`. Displacements and speeds equal `Chain.Next` of the pre-step chain. |
| Step.StageInOrder | index.js:69-77 | Running the first loop over the points in any order that visits each point exactly once stages every point exactly as the left-to-right loop does. |
| Step.StepInOrder | index.js:66-83 | A step whose first loop visits the points in any order, each exactly once, has the same result as the left-to-right step: same ids and positions, nothing staged, and displacements and speeds equal to `Chain.Next`. The step does not depend on iteration order. |
| Step.Simulate | index.js:91-97 | Calling `step` once per frame, over any list of elapsed times, keeps the number of points and every `id` and `x`. The motion equals the law run frame by frame. |
| ChainLemmas.NextReadsOnlyNeighbourhood | index.js:69-77 | A point's new speed and displacement depend only on the old displacements of itself and its two neighbours and on its own old speed. Two chains that agree there give the same result at that point. |
| ChainLemmas.EndPoints | index.js:72-75 | The first point's speed changes by `-K * (2*y[0] - y[1]) * dt`. The last point's speed changes by `-K * (2*y[N-1] - y[N-2]) * dt`. A single-point chain's speed changes by `-K * 2*y[0] * dt`. |
| ChainLemmas.UniformLiftPullsOnlyTheEnds | index.js:72-75 | For a still chain lifted uniformly to `c`, interior points feel no force, but both ends are pulled back by `K * c * dt`. The ends are fixed, not free. |
| ChainLemmas.ZeroTimeStep | index.js:75-76 | With `dt = 0` every speed is kept and every displacement advances by its speed. |
| ChainLemmas.ZeroTimeStepFromStill | index.js:75-76 | With `dt = 0`, a chain whose speeds are all zero is left exactly as it was. |
| ChainLemmas.DisturbanceDistances | index.js:72-73 | In a still chain displaced only at `c`, point `c` sees its own displacement on both sides. Each neighbour sees minus that displacement on the side facing `c` and nothing on the other side. Every other point sees no distance. |
| ChainLemmas.SingleDisturbanceSpreadsOnePoint | index.js:72-76 | Consider a still chain displaced only at `c`. After one step: point `c`'s speed is `-2*K*y*dt`, each direct neighbour's speed and displacement are `K*y*dt`, and every point at distance two or more stays at displacement 0 and speed 0. |
| ChainLemmas.AtRestIsFixedPoint | index.js:72-76 | A chain with all displacements and speeds zero is unchanged by a step of any `K` and `dt`. |
| ChainLemmas.RunFromRest | index.js:66-83 | A chain at rest stays at rest over any sequence of steps. |
| ChainLemmas.MirrorDistances | index.js:72-73 | In mirror-symmetric displacements, the left distance of point `i` equals the right distance of point `N-1-i`. This includes the ends. |
| ChainLemmas.NextPreservesSymmetry | index.js:72-76 | If displacements and speeds are mirror-symmetric before a step, they are mirror-symmetric after it. |
| ChainLemmas.RunPreservesSymmetry | index.js:66-83 | Mirror symmetry of displacements and speeds survives any sequence of steps. |
| ChainLemmas.FivePointStep | index.js:69-77 | Worked step: five still points, the middle lifted to 5, K = 1/1000, dt = 16. Speeds become `[0, 0.08, -0.16, 0.08, 0]` and displacements become `[0, 0.08, 4.84, 0.08, 0]`. |

## Left out

- Chain.Next: its contract states only the shape of the result. The behaviour is stated in the `ChainLemmas` lemmas and in `Step.Step`.
- Chain.Run: its contract states only the shape of the result. The behaviour over many frames is stated in `ChainLemmas.RunFromRest`, `ChainLemmas.RunPreservesSymmetry` and `Step.Simulate`.
- SVG and d3 setup, the coordinate scales and the circle binding (index.js:22-31, 52-58, 94-95). These are drawing calls into a library outside this model.
- Frame scheduling with `requestAnimationFrame` and the wall clock (index.js:37, 97). `Step.Simulate` takes the list of elapsed times as a parameter instead.
- `updateFps` (index.js:105-114). It is frame-rate bookkeeping and console output, with no effect on the surface.
- Floating point. Numbers are exact reals, so rounding, NaN, infinities and numerical stability or energy drift are not modelled.
- A variant in which each point is an isolated spring, reading no neighbours. It does not appear in this source.
- `POINT_RADIUS` (index.js:18). It only sizes the drawn circles.
