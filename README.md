# Scroll-to-stage calculator of TriangleFramework

This project models the scroll-driven animation stage of the `TriangleFramework`
component of the foundation website. A frame is requested after a scroll event,
on entering the viewport and on mount. In that frame the component reads two
things: the top and bottom of its section relative to the viewport, and the
window height. From them it computes a scroll progress in [0, 1]. It turns that
progress into a stage from 0 to 5 with a fixed threshold table, then stores the
stage and notifies React only when the stage has changed. The five
element-visibility flags come from the stored stage. The component also holds a
pending-frame handle. A newly requested frame cancels and replaces the pending
one, and unmounting cancels it.

- `wrappers.dfy`: `Option`, used for `null` refs and a missing section element.
- `scroll_stage.dfy` (module `ScrollStage`): the pure part. It holds the geometry,
  `Progress`, the threshold table (`StageOf`), the successive-`if` stage
  computation (`ComputeStage`), the visibility flags, and `Observed` and `Settle`,
  which give the effect of one evaluation on the retained stage.
- `triangle_framework.dfy` (module `TriangleFramework`): the class `Controller`
  with the retained state. Its fields are `activeStage`, `lastStage`
  (`lastStageRef`) and `frameRef` (`animationFrameRef`). It also keeps the
  browser's queue of this controller's frame callbacks, and the attach state of
  the listener and the observer. Its methods are the scroll handler, the frame
  callback, the intersection and scroll events, mount and teardown.

Browser numbers are `real` and the window height is positive. The stage is
defined as the number of thresholds `[0, 0.05, 0.10, 0.20, 0.30]` that the
progress reaches. `ComputeStage` performs the component's successive
reassignment and is proved equal to it. `StageTable` states the table band by
band, in both directions.

Two details of the frame handling:

- Leaving the viewport does not cancel a pending evaluation. The observer's
  "not intersecting" branch (`src/components/TriangleFramework.tsx:68-71`) only
  removes the scroll listener, so a frame that was already requested still runs. `OnIntersection(false)` leaves
  the frame queue unchanged.
- `animationFrameRef` is never cleared after its frame has run. `RunFrame` leaves
  `frameRef` holding the spent handle. A later cancellation of that handle
  removes nothing.

## Model

| member | source | states |
|---|---|---|
| `ScrollStage.CenterDistance` | src/components/TriangleFramework.tsx:28-39 | the distance between the centres is non-negative and is zero exactly when the section is centred in the window |
| `ScrollStage.Clamp01` | src/components/TriangleFramework.tsx:41 | the result lies in [0, 1], equals its input inside [0, 1], and saturates at 0 below and at 1 above |
| `ScrollStage.Clamp01Monotone` | src/components/TriangleFramework.tsx:41 | clamping preserves order |
| `ScrollStage.Progress` | src/components/TriangleFramework.tsx:37-41 | progress lies in [0, 1]; it is 1 exactly when the section is centred, and 0 exactly when the centres are at least 0.8·H apart |
| `ScrollStage.ProgressAntitone` | src/components/TriangleFramework.tsx:38-41 | for a fixed window height, progress does not increase as the centre distance grows |
| `ScrollStage.Reached` | src/components/TriangleFramework.tsx:44-49 | the number of thresholds reached is at most the number of thresholds |
| `ScrollStage.ReachedIsPrefix` | src/components/TriangleFramework.tsx:44-49 | against increasing thresholds, threshold i is reached exactly when i is below the count, so the last reassignment decides the stage |
| `ScrollStage.ReachedMonotone` | src/components/TriangleFramework.tsx:44-49 | more progress never reaches fewer thresholds |
| `ScrollStage.StageOf` | src/components/TriangleFramework.tsx:44-49 | the stage lies in 0..5 and is 0 exactly when progress is negative |
| `ScrollStage.StageTable` | src/components/TriangleFramework.tsx:44-49 | stage 0 iff p < 0; stage 1 iff 0 ≤ p < 0.05; stage 2 iff 0.05 ≤ p < 0.10; stage 3 iff 0.10 ≤ p < 0.20; stage 4 iff 0.20 ≤ p < 0.30; stage 5 iff p ≥ 0.30 |
| `ScrollStage.StageMonotone` | src/components/TriangleFramework.tsx:44-49 | the stage is non-decreasing in progress |
| `ScrollStage.ProgressedStage` | src/components/TriangleFramework.tsx:41-49 | every computed progress gives a stage in 1..5, never 0 |
| `ScrollStage.StageAntitoneInDistance` | src/components/TriangleFramework.tsx:38-49 | a section nearer the window centre never gets an earlier stage |
| `ScrollStage.ComputeStage` | src/components/TriangleFramework.tsx:44-49 | the successive reassignment of `newStage` yields the threshold-table stage |
| `ScrollStage.Flags` | src/components/TriangleFramework.tsx:97-101 | there are five flags, and they are nested: flag k implies flag k-1 |
| `ScrollStage.CountTrue` | src/components/TriangleFramework.tsx:97-101 | the number of set flags is at most the number of flags |
| `ScrollStage.CountTruePrefix` | src/components/TriangleFramework.tsx:97-101 | a run of k set flags followed only by clear flags has k set flags |
| `ScrollStage.FlagsCountStage` | src/components/TriangleFramework.tsx:97-101 | for a stage in 0..5, the number of set flags equals the stage |
| `ScrollStage.FlagsInjective` | src/components/TriangleFramework.tsx:97-101 | two stages in 0..5 with the same flags are equal, so the flags determine the stage |
| `ScrollStage.Observed` | src/components/TriangleFramework.tsx:22-49 | an evaluation observes nothing exactly when the section is absent or off-screen (bottom < 0 or top > H); otherwise it observes the stage of the current progress, which is in 1..5 |
| `ScrollStage.Settle` | src/components/TriangleFramework.tsx:22-55 | the retained stage is unchanged when nothing is observed, and is in 1..5 otherwise |
| `ScrollStage.SettleIdempotent` | src/components/TriangleFramework.tsx:51-55 | a second evaluation of the same geometry settles where the first did |
| `ScrollStage.SettleInRange` | src/components/TriangleFramework.tsx:44-55 | evaluations keep the stage in 0..5, and once the stage is past 0 it never returns to 0 |
| `ScrollStage.CenteredExample` | src/components/TriangleFramework.tsx:38-49 | H = 1000, top = 400, bottom = 600 gives progress 1, stage 5 and all five flags set |
| `ScrollStage.StageExamples` | src/components/TriangleFramework.tsx:44-49 | sample progress values on both sides of each threshold map to stages 1, 1, 2, 2, 3, 3, 4, 4, 5, 5 |
| `ScrollStage.BelowWindowExample` | src/components/TriangleFramework.tsx:33-35 | a section at 900..1000 in an 800-pixel window is not evaluated and the stage is kept |
| `TriangleFramework.Controller.AtMostOnePending` | src/components/TriangleFramework.tsx:16-21 | under the controller's invariant, at most one evaluation is waiting for a frame |
| `TriangleFramework.Controller.VisibleFlags` | src/components/TriangleFramework.tsx:96-101 | flag i+1 is set iff `activeStage >= i+1`, and the number of set flags equals `activeStage` |
| `TriangleFramework.Controller.constructor` | src/components/TriangleFramework.tsx:10-13 | the state starts at stage 0 with no frame requested, and nothing is attached |
| `TriangleFramework.Controller.Schedule` | src/components/TriangleFramework.tsx:16-21 | the frame the ref held is cancelled and a new one is requested; afterwards exactly that new frame is pending and the ref holds it |
| `TriangleFramework.Controller.Evaluate` | src/components/TriangleFramework.tsx:22-55 | the new stage is `Settle` of the old one; an absent or off-screen section changes nothing; `setActiveStage` is called exactly when the stage changes; afterwards `activeStage == lastStage` |
| `TriangleFramework.Controller.EvaluateTwice` | src/components/TriangleFramework.tsx:51-55 | for every geometry, a second evaluation of the same geometry never calls `setActiveStage`, and the stage is where one evaluation puts it |
| `TriangleFramework.Controller.RunFrame` | src/components/TriangleFramework.tsx:21-56 | running the pending frame leaves nothing pending, keeps the spent handle in the ref, and evaluates as `Evaluate` does |
| `TriangleFramework.Controller.OnIntersection` | src/components/TriangleFramework.tsx:62-72 | entering attaches the listener and schedules exactly one evaluation; leaving detaches the listener and leaves a pending frame in place |
| `TriangleFramework.Controller.OnScroll` | src/components/TriangleFramework.tsx:66 | a scroll event on the attached listener replaces the pending evaluation with a new one |
| `TriangleFramework.Controller.Mount` | src/components/TriangleFramework.tsx:59-85 | mounting observes the section only if it is attached, and always schedules one evaluation; the stage is untouched |
| `TriangleFramework.Controller.Teardown` | src/components/TriangleFramework.tsx:87-93 | cleanup cancels the pending frame, so nothing is left to run; the listener and the observer are detached; the stage is kept |

## Left out

- IntersectionObserver geometry: the 20% root margin and the `[0, 0.1]` thresholds (`src/components/TriangleFramework.tsx:74-77`). This is browser computation. The observer's verdict is the `isIntersecting` parameter of `OnIntersection`.
- Real frame timing of `requestAnimationFrame`/`cancelAnimationFrame`: browser scheduling. The model keeps only the queue of this controller's callbacks and positive handles. `RunFrame` may be called for a pending frame at any point.
- IEEE-754 arithmetic: numbers are `real` and the window height is positive. A window height of 0 in the browser can give NaN, which fails every threshold and yields stage 0. That case is not modelled.
- React rendering: `setActiveStage` is an immediate assignment of `activeStage`, and the deferred re-render is not modelled. A re-run of the effect happens only through `Teardown` followed by `Mount`.
- The JSX, CSS transitions and SVG (`src/components/TriangleFramework.tsx:103-351`): presentation only.
- `src/pages/ResourcesPage.tsx`, `src/pages/MentorshipPage.tsx` and `src/hooks/useQueries.ts` are not part of this model: static content and mock data hooks without logic.
