# Animation timing core of manim, in Dafny

This project models the `Animation` base class of manim
(`manimlib/animation/animation.py`): the piece of the animation engine that,
given a mobject (a tree of renderable nodes) and a global progress value
`alpha`, decides how far along each node of the tree is and hands each node to
an effect-specific interpolation hook.

It covers three things.

- **The lifecycle.** `Begin` fits the run time and rate function to an
  optional time span, marks the mobject as animating, copies its starting
  state, suspends its own updaters when configured to, caches the zipped
  families of the mobject and its copy, and interpolates to progress 0.
  `Interpolate` calls the per-node hook once per zipped pair. `Finish`
  interpolates to the final progress and hands the mobject back to its own
  updaters. `CleanUpFromScene` takes the mobject off the scene for a remover
  only. A ghost `phase` (Unstarted, Active, Finished) records where the
  animation is.
- **Staggered timing.** `Timing.RawSubAlpha` and `Timing.SubAlpha` give the
  progress of node `index` out of `count`. The lemmas beside them prove its
  bounds, its monotonicity in progress and in node index, what lag ratios 0
  and 1 mean, its endpoints, and how a time span squishes the rate function.
- **Normalisation.** `PrepareAnimation` turns a builder or an animation into
  an animation and rejects anything else with a type error.

Layout:

- `wrappers.dfy`: `Option` and `Result`.
- `timing.dfy` (module `Timing`): pure timing rules and their lemmas.
- `mobjects.dfy` (module `Mobjects`): the collaborators the animation drives. A
  `Mobject` is a class with a family of nodes, an animating flag, an
  updating-suspended flag and a clock advanced by its own updaters. A `Scene`
  is a list of mobjects.
- `animation.dfy` (module `Animations`): the configuration record with its
  defaults, the `Animation` class, the per-node pass, two driver methods
  (`Play`, `CleanUpTwice`) and `PrepareAnimation`.

The effect of the per-node hook `interpolate_submobject` is left to concrete
animations in manim. Here it appends a `HookCall(live, starting, subAlpha)` to
the animation's `hookCalls`. One interpolation at progress `alpha` therefore
appends exactly `Pass(rate, lag, families, alpha)`. `PassVisitsPairsInOrder`
says what that sequence holds: one call per zipped pair, in index order, with
that pair's sub-alpha.

Rate functions are values of type `real -> real`. The default rate function
`smooth` is a parameter of `DefaultConfig`.

## Model

| member | source | states |
|---|---|---|
| `Timing.Clip` | manimlib/animation/animation.py:168 | the clamp used on a node's progress lands in [lo, hi], keeps values already inside, and gives lo below the range and hi above it |
| `Timing.RawSubAlpha` | manimlib/animation/animation.py:164-168 | a node's linear progress always lies in [0, 1], for any alpha, index, count and lag |
| `Timing.SubAlpha` | manimlib/animation/animation.py:164-169 | with lag 0 and alpha in [0, 1] a node gets `rate_func(alpha)`; with lag >= 0 and index < count, alpha 0 gives `rate_func(0)` and alpha 1 gives `rate_func(1)` |
| `Timing.RawSubAlphaMonotoneInAlpha` | manimlib/animation/animation.py:164-168 | with lag >= 0 and index < count, a node's progress never decreases as the global progress grows |
| `Timing.RawSubAlphaAntitoneInIndex` | manimlib/animation/animation.py:164-168 | with lag >= 0, a later node never leads an earlier one at the same global progress |
| `Timing.LagZeroIsSynchronous` | manimlib/animation/animation.py:164-169 | with lag 0 and alpha in [0, 1], every node gets `rate_func(alpha)`, whatever its index or the count |
| `Timing.SingleNodeIgnoresLag` | manimlib/animation/animation.py:164-169 | a family of one node gets `rate_func(clip(alpha, 0, 1))` for every lag |
| `Timing.SubAlphaEndpoints` | manimlib/animation/animation.py:165-168 | with lag >= 0 and index < count, alpha 0 gives progress 0 and alpha 1 gives progress 1 for every node |
| `Timing.ThreeNodesHalfLagHalfway` | manimlib/animation/animation.py:164-168 | three nodes, lag 0.5, alpha 0.5 give progress 1, 0.5 and 0; alpha 0 gives all three progress 0 and alpha 1 gives all three progress 1 |
| `Timing.LagOneIsSequential` | manimlib/animation/animation.py:36-38 | with lag 1 the nodes run one after another: once a node has started, every earlier node has finished |
| `Timing.SquishIsClampedRescale` | manimlib/animation/animation.py:61-63 | for a window a < b, the squished rate function is the rate function of `clip((t - a) / (b - a), 0, 1)` |
| `Timing.SpanWindowInUnit` | manimlib/animation/animation.py:58-63 | with 0 <= start <= end and run time > 0, the window [start / run_time, end / run_time] after widening lies inside [0, 1] |
| `Timing.SpanHoldsBeforeStart` | manimlib/animation/animation.py:58-63 | with a time span and lag 0, every node holds `rate_func(0)` while the time is at or before the span's start |
| `Timing.SpanHoldsAfterEnd` | manimlib/animation/animation.py:58-63 | with a time span and lag 0, every node holds `rate_func(1)` once the time is past the span's start and at or after its end |
| `Timing.SpanWithLagMovesBeforeStart` | manimlib/animation/animation.py:58-63 | with lag 1 the hold before the span's start fails: two nodes, span (0.5, 1), run time 1, alpha 0.4 give node 0 `rate_func(0.6)` |
| `Timing.Squish` | manimlib/animation/animation.py:61-63 | the squished rate function gives `f(0)` up to the window's start, `f(1)` from its end (past its start), and `f((t - a) / (b - a))` between |
| `Timing.BegunRunTime` | manimlib/animation/animation.py:58-60 | the run time `begin` installs is at least the configured one and at least the span's end, and is the configured one without a span |
| `Timing.BegunRate` | manimlib/animation/animation.py:58-63 | without a span the rate function is kept; with one it holds `rate_func(0)` up to start / run_time and `rate_func(1)` from end / run_time once past start / run_time, with the widened run time |
| `Timing.EffectiveRunTime` | manimlib/animation/animation.py:176-179 | the reported run time is `max(run_time, end)` with a span, otherwise `run_time` |
| `Timing.EffectiveRunTimeStableAcrossBegin` | manimlib/animation/animation.py:58-60 | the run time reported before `begin` is the run time `begin` installs, and reporting it afterwards gives that run time unchanged |
| `Mobjects.Without` | manimlib/animation/animation.py:118-121 | filtering out a mobject keeps exactly the other mobjects and never lengthens the list |
| `Mobjects.WithoutAbsent` | manimlib/animation/animation.py:118-121 | filtering out a mobject that is not present changes nothing |
| `Mobjects.WithoutAppend` | manimlib/animation/animation.py:118-121 | filtering distributes over joining two lists |
| `Mobjects.WithoutIdempotent` | manimlib/animation/animation.py:83-85 | removing the same mobject twice is removing it once |
| `Mobjects.Mobject.SetAnimatingStatus` | manimlib/animation/animation.py:64 | the mobject's animating flag becomes the given value, nothing else changes |
| `Mobjects.Mobject.SuspendUpdating` | manimlib/animation/animation.py:73 | the mobject's own updaters are suspended, nothing else changes |
| `Mobjects.Mobject.ResumeUpdating` | manimlib/animation/animation.py:81 | the mobject's own updaters are resumed, nothing else changes |
| `Mobjects.Mobject.Update` | manimlib/animation/animation.py:112 | a suspended mobject does not advance; otherwise its clock advances by dt |
| `Mobjects.Mobject.Copy` | manimlib/animation/animation.py:89 | the copy is a new object with the same family and flags |
| `Mobjects.Scene.Remove` | manimlib/animation/animation.py:85 | the scene's mobjects become the old ones without the removed mobject |
| `Animations.DefaultConfig` | manimlib/animation/animation.py:25-41 | the class defaults: run time 1, no span, the given `smooth`, no name, not a remover, final progress 1, lag 0, updating suspended |
| `Animations.DefaultConfigIsSynchronous` | manimlib/animation/animation.py:25-41 | the defaults run for one second, move every node at once (lag 0) and end at progress 1 |
| `Animations.Zip` | manimlib/animation/animation.py:97-101 | zipping the two families gives the shorter length, and pair k holds the k-th node of each |
| `Animations.PassPrefix` | manimlib/animation/animation.py:141-144 | the first n hook calls of a pass number exactly n |
| `Animations.Pass` | manimlib/animation/animation.py:141-144 | one pass makes exactly one hook call per zipped pair |
| `Animations.PassPrefixAt` | manimlib/animation/animation.py:141-144 | call k of a pass is the hook call for pair k |
| `Animations.PassVisitsPairsInOrder` | manimlib/animation/animation.py:141-144 | one interpolation calls the hook once per zipped pair, in index order, with `get_sub_alpha(alpha, k, len(families))` |
| `Animations.PassEndpoints` | manimlib/animation/animation.py:75-78 | with lag >= 0, the pass at progress 0 gives every node `rate_func(0)` and the pass at progress 1 gives every node `rate_func(1)` |
| `Animations.Animation.constructor` | manimlib/animation/animation.py:43-46 | a new animation holds its mobject and configuration, is unstarted and has made no hook calls |
| `Animations.Animation.Begin` | manimlib/animation/animation.py:53-75 | widens the run time and squishes the rate function when a span is set, so that `get_run_time` equals the run time; sets animating; suspends updating iff configured (or already suspended); takes a fresh copy with the same family that keeps its own updaters; caches the zipped families; makes one pass at progress 0 |
| `Animations.Animation.Finish` | manimlib/animation/animation.py:77-81 | makes one pass at `final_alpha_value`, clears animating, and resumes updating iff configured to suspend it |
| `Animations.Animation.CleanUpFromScene` | manimlib/animation/animation.py:83-85 | the scene loses the mobject iff the animation is a remover, and is unchanged otherwise |
| `Animations.Animation.CreateStartingMobject` | manimlib/animation/animation.py:87-89 | the starting mobject is a new copy of the mobject with its family and flags |
| `Animations.Animation.GetAllMobjects` | manimlib/animation/animation.py:91-95 | the mobject then its starting copy, in the order the hook takes them; the two differ once the animation has begun |
| `Animations.Animation.GetAllFamiliesZipped` | manimlib/animation/animation.py:97-101 | pairs the two families position by position, as long as the shorter family |
| `Animations.Animation.UpdateMobjects` | manimlib/animation/animation.py:103-112 | advances the starting copy's updaters by dt (unless suspended) and leaves the animated mobject's clock alone, keeping the class invariant |
| `Animations.Animation.GetAllMobjectsToUpdate` | manimlib/animation/animation.py:114-121 | the mobjects to update never include the animated mobject and are exactly the starting copy |
| `Animations.Animation.Interpolate` | manimlib/animation/animation.py:131-132 | interpolating appends one pass at the given progress to the hook calls, one call per node of the mobject's family, keeping the class invariant |
| `Animations.Animation.Update` | manimlib/animation/animation.py:134-139 | the legacy name behaves exactly as `Interpolate` |
| `Animations.Animation.InterpolateMobject` | manimlib/animation/animation.py:141-144 | the loop appends the hook calls of one pass, pair by pair |
| `Animations.Animation.GetSubAlpha` | manimlib/animation/animation.py:155-169 | the node's progress is the rate function of its clipped linear progress; with lag 0 and alpha in [0, 1] it is `rate_func(alpha)` |
| `Animations.Animation.InterpolateSubmobject` | manimlib/animation/animation.py:146-153 | the hook records one call with the live node, the starting node and the sub-alpha |
| `Animations.Animation.SetRunTime` | manimlib/animation/animation.py:172-174 | sets the run time only and returns the animation itself |
| `Animations.Animation.GetRunTime` | manimlib/animation/animation.py:176-179 | the reported run time is at least the run time and the span's end, and is one of them |
| `Animations.Animation.SetRateFunc` | manimlib/animation/animation.py:181-183 | sets the rate function only and returns the animation itself |
| `Animations.Animation.SetName` | manimlib/animation/animation.py:188-190 | sets the name only and returns the animation itself |
| `Animations.Play` | manimlib/animation/animation.py:53-81 | begin then finish on a fresh mobject: the hook sees the pass at 0 then the pass at the final progress, the mobject ends neither animating nor suspended, and the run time is the one reported before begin |
| `Animations.CleanUpTwice` | manimlib/animation/animation.py:83-85 | the mobject stays on the scene iff the animation is not a remover, and a second clean-up changes nothing |
| `Animations.PrepareAnimation` | manimlib/animation/animation.py:196-203 | a builder gives the result of its `build()`, an animation is returned unchanged, anything else is a type error naming the value |
| `Animations.PrepareAnimationIdempotent` | manimlib/animation/animation.py:196-203 | normalising an already normalised value gives it back |

## Left out

- `digest_config` keyword merging (`__init__` and `update_config`, lines 45 and 126-128) is not modelled. The animation takes a fixed `Config` record, and `DefaultConfig` holds the class defaults of lines 25-41.
- `copy` of the animation (deepcopy, lines 123-124) and `__str__` (lines 48-51) are not modelled. They are object copying and display only.
- The `isinstance` assertion of `__init__` (line 44) is enforced by the parameter's type.
- `get_rate_func` and `is_remover` are plain getters without contracts. `is_remover` is what `CleanUpFromScene` branches on, and its contract states the consequence.
- The rate functions (`smooth`) and `squish_rate_func` are not part of this model. `Timing.Squish` stands in for the squish: `f(0)` up to the window's start, `f(1)` from its end, the rescaled progress between. A zero-width window becomes a step from `f(0)` to `f(1)`.
- `clip` is not part of this model either. `Timing.Clip` is the usual clamp.
- Floating point: every time, progress and ratio is a `real`. IEEE rounding is not modelled.
- The mobject's own code (`get_family`, `set_animating_status`, `suspend_updating`, `resume_updating`, `update`, `copy`) is not part of this model. `Mobjects.Mobject` stands in for it and keeps the flags on the root only, although manim sets them across the whole family. The family is a sequence of node values, and a deep copy holds equal values in a new object.
- `Scene.remove` is not part of this model. `Mobjects.Scene.Remove` stands in for it as removal by identity from the scene's list.
- The hook's effect on the nodes is not modelled. Concrete animations supply it, and the base class does nothing; the model records each call instead.
- `_AnimationBuilder.build()` is a pure function `() -> Animation` here, so the allocation of a new animation is not modelled.
- Animations.Animation.Begin: requires a non-zero widened run time when a span is set. The source divides by it and would raise `ZeroDivisionError`; that error path is not modelled.
- Animations.Animation.Begin: requires an unstarted animation. Calling `begin` again is not modelled, since an animation is used once.
- Animations.Animation.Interpolate: requires a begun animation. In the source, interpolating or finishing before `begin` fails on the missing `families` attribute; that failure is not modelled. `Finish` requires a begun animation for the same reason.
- Animations.Animation.UpdateMobjects: requires a begun animation. In the source, `update_mobjects` and `get_all_mobjects_to_update` before `begin` fail on the missing `starting_mobject` attribute read at line 95; that failure is not modelled, and `GetAllMobjectsToUpdate`, `GetAllMobjects` and `GetAllFamiliesZipped` require a starting mobject for the same reason.
- `Finish` does not restore the mobject's flags to their state before `begin`. It clears the animating flag and resumes updating whenever `suspend_mobject_updating` is set, even if the mobject was already suspended before `begin`. The model follows the code here, and the contracts of `Begin` and `Finish` state the code's behaviour.
- The lag ratio is not required to lie in [0, 1]. The monotonicity and endpoint lemmas assume only that it is non-negative, which is what they need. With a negative lag the endpoint property fails.
- Timing.SpanHoldsBeforeStart: requires lag 0, and so does `Timing.SpanHoldsAfterEnd`. With a lag, `begin` squishes the rate function but each node's own progress is fed into it, so a node ahead of the global progress leaves the hold early. `Timing.SpanWithLagMovesBeforeStart` gives the input: lag 1, two nodes, span (0.5, 1), run time 1 and alpha 0.4 give node 0 raw progress 0.8 and `rate_func(0.6)` while the time is still before the span's start.
