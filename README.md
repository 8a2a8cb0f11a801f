# TransformView animation, modelled in Dafny

GrafDemo's `TransformView` animates its transform (translation, rotation and
scale) with a timer-driven state machine. Three step animators
(`translationAnimator`, `rotationAnimator`, `scaleAnimator`) each set their
field to a start value and return a closure. Each call of that closure adds
a fixed increment, `(to - from) / 15`, to the field. It reports "finished"
once the primary component (x, the angle or the width) is strictly past the
target. `compositeAnimator` runs a list of such closures one after another
behind a cursor. `startAnimation` builds that list from the enabled
animators, in the order scale, rotate, translate. `tick` runs the composite
once per timer fire. When the composite reports done, `tick` clears the
animation and the timer.

The model has three modules:

- `Animation` (`animation.dfy`) holds the values.
  - The transform, the steps and the composite are datatypes. What each
    Swift closure captures is made explicit: start, target, increment, and
    the cursor `index`.
  - Each call of a closure, and each timer tick, is a pure function.
  - `CGFloat` is `real`, so all arithmetic is exact.
- `View` (`transform_view.dfy`) holds the class `TransformView`.
  - Its fields mirror the view's fields.
  - Every method is proved against the functions of `Animation`.
  - `needsDisplay` stands for the "mark dirty" side effect that writing a
    transform field triggers.
  - The constant π is a parameter of `StartAnimation`.
  - The new timer comes in as an opaque handle.
- `AnimationLemmas` (`animation_lemmas.dfy`) holds the properties:
  - the exact call on which a step finishes;
  - the two cases where the completion test misfires;
  - the composite's cursor rules;
  - the shape of the list `startAnimation` builds;
  - how many ticks a whole animation started from the reset transform lasts;
  - the values the fields are left with when it is cleared.

Details of the code the model keeps on purpose:

- Completion looks at the primary component only. The y component and the
  height never take part.
- A step whose primary component starts on its target never finishes,
  because its increment is zero and the test is strict.
- The rotation closure does not request a redraw explicitly. The write to
  `rotation` requests it through the field's observer.
- Once the cursor runs past the end, the composite keeps its last step as
  the current one. `Current` models this. In the code the closure is always
  dropped at that point.

## Model

| member | source | states |
|---|---|---|
| Animation.Enter | GrafDemo/TransformView.swift:215-255 | Creating an animator sets the primary component of its field to `from` and leaves the other two fields unchanged |
| AnimationLemmas.EnterSets | GrafDemo/TransformView.swift:215-255 | Creating an animator sets every component of its field to `from` |
| Animation.Advance | GrafDemo/TransformView.swift:221-262 | One call adds the increment to the primary component of its own field and leaves the other two fields unchanged (the full component-wise effect is `AdvanceSets`) |
| AnimationLemmas.AdvanceSets | GrafDemo/TransformView.swift:221-262 | One call adds the increment to every component of its own field: x and y, the angle, width and height |
| Animation.MakeTranslation | GrafDemo/TransformView.swift:215-221 | The translation step keeps `from` and `to`, and fifteen increments take `from` exactly to `to` in both x and y |
| Animation.MakeRotation | GrafDemo/TransformView.swift:237-242 | The rotation step keeps `from` and `to`, and fifteen increments take `from` exactly to `to` |
| Animation.MakeScale | GrafDemo/TransformView.swift:254-260 | The scale step keeps `from` and `to`, and fifteen increments take `from` exactly to `to` in both width and height |
| Animation.Done | GrafDemo/TransformView.swift:227-271 | "Finished" is `translation.x > to.x` for a translation step, `rotation > to` for a rotation step and `scale.width > to.width` for a scale step |
| Animation.Tick | GrafDemo/TransformView.swift:202-212 | Without an animation nothing changes. With one, the transform is the one the composite call produced, the animation is cleared exactly when that call reports "done", and otherwise the composite's updated state is kept |
| Animation.Plan | GrafDemo/TransformView.swift:318-328 | The list is empty exactly when no flag is on. It holds at most three steps, the scaler first when scaling is on, the translator last when translating is on, and the rotator exactly when rotating is on |
| Animation.Current | GrafDemo/TransformView.swift:276-295 | The current step is in the list, and is the one at the cursor while the cursor is inside the list |
| Animation.CompositeAdvance | GrafDemo/TransformView.swift:275-301 | An empty composite returns "done" and changes nothing. Otherwise the current step runs once. The step list never changes. The cursor stays or moves by exactly one, and a "not done" result leaves it inside the list |
| AnimationLemmas.AdvanceNOwn | GrafDemo/TransformView.swift:218-262 | After `k` calls, each component of the step's own field has moved by `k` increments |
| AnimationLemmas.AdvanceNOthers | GrafDemo/TransformView.swift:221-262 | However often a step is called, the other two fields keep their values |
| AnimationLemmas.PrimaryMoves | GrafDemo/TransformView.swift:221-261 | The primary component moves by one increment per call |
| AnimationLemmas.MadeDelta | GrafDemo/TransformView.swift:218-258 | The primary increment an animator computes is a fifteenth of the primary distance |
| AnimationLemmas.PrimaryAfter | GrafDemo/TransformView.swift:215-261 | From its start value, the primary component after `k` calls is `from + k * (to - from) / 15` |
| AnimationLemmas.PastTarget | GrafDemo/TransformView.swift:218-232 | `from + k * (to - from) / 15 > to` holds exactly when `k > 15`, for `from < to` |
| AnimationLemmas.FinishingCall | GrafDemo/TransformView.swift:218-232 | A fresh step moving upwards reports "finished" exactly from call 16 on. Call 15 lands exactly on the target |
| AnimationLemmas.TranslatorScenario | GrafDemo/TransformView.swift:308-310 | The default translator is at (200/15, 100/15) and not finished after one call. After sixteen calls x is past 200 and it is finished |
| AnimationLemmas.FlatNeverFinishes | GrafDemo/TransformView.swift:227-232 | A step whose primary component starts on its target never reports "finished" |
| AnimationLemmas.BackwardsFinishesAtOnce | GrafDemo/TransformView.swift:227-271 | A step moving downwards reports "finished" after its first call |
| AnimationLemmas.CompletionIgnoresSecondary | GrafDemo/TransformView.swift:227-271 | The y component and the height do not affect the completion test |
| AnimationLemmas.CursorRules | GrafDemo/TransformView.swift:284-300 | Exactly the current step runs. "Not finished" keeps the cursor and returns "not done". "Finished" on the last step returns "done". "Finished" on any other step moves the cursor by one and returns "not done" |
| AnimationLemmas.IdleTicks | GrafDemo/TransformView.swift:202-205 | Without a stored animation, any number of ticks changes nothing |
| AnimationLemmas.EmptyComposite | GrafDemo/TransformView.swift:276-280 | An empty composite returns "done" and changes nothing, so its tick clears the animation and leaves the transform as it was |
| AnimationLemmas.TickRuns | GrafDemo/TransformView.swift:202-212 | A tick keeps the composite exactly when the composite reports "not done", and the transform is the one the composite call produced |
| AnimationLemmas.TicksAdd | GrafDemo/TransformView.swift:202-212 | `p + q` ticks are `p` ticks followed by `q` ticks |
| AnimationLemmas.PhaseTicks | GrafDemo/TransformView.swift:284-299 | During the first 15 ticks of a fresh current step, each tick runs that step and the cursor stays |
| AnimationLemmas.PhaseEnd | GrafDemo/TransformView.swift:284-296 | The sixteenth tick finishes the current step. The cursor moves on, or the animation is cleared after the last step |
| AnimationLemmas.SameFieldAfter | GrafDemo/TransformView.swift:221-262 | What a step does to its own field depends only on that field |
| AnimationLemmas.FieldElsewhere | GrafDemo/TransformView.swift:221-262 | A step leaves every other field unchanged |
| AnimationLemmas.NextPhase | GrafDemo/TransformView.swift:284-296 | After sixteen ticks the cursor is on the next step, and the remaining steps can still run in turn |
| AnimationLemmas.RemainingAlive | GrafDemo/TransformView.swift:202-212 | A runnable composite is still stored on every tick before its remaining steps have had sixteen ticks each |
| AnimationLemmas.RemainingCleared | GrafDemo/TransformView.swift:202-212 | ...and it is cleared exactly on the last of those ticks |
| AnimationLemmas.RemainingUntouched | GrafDemo/TransformView.swift:284-300 | A field no remaining step drives is unchanged when the animation is cleared |
| AnimationLemmas.RemainingFinal | GrafDemo/TransformView.swift:284-300 | The field of each remaining step ends as sixteen calls of that step make it |
| AnimationLemmas.PlanShape | GrafDemo/TransformView.swift:318-328 | The list holds exactly the enabled animators, in the order scale, rotate, translate. Each has the increment its animator computes, and no two drive the same field |
| AnimationLemmas.PlanRunnable | GrafDemo/TransformView.swift:304-330 | From the reset transform, a non-empty list can run every step in turn, given a positive rotation target |
| AnimationLemmas.PlanAt | GrafDemo/TransformView.swift:318-328 | Where each enabled animator sits in the list. A field that is not enabled has no step in it |
| AnimationLemmas.EmptyPlanFinish | GrafDemo/TransformView.swift:276-280 | With all flags off, the first tick clears the animation and leaves the transform as it was |
| AnimationLemmas.SessionLength | GrafDemo/TransformView.swift:202-333 | With `n` enabled animators, the animation is stored on ticks `0 .. 16n-1` and cleared on tick `16n`. With none enabled, it is cleared on tick 1 |
| AnimationLemmas.FieldAtEnd | GrafDemo/TransformView.swift:284-300 | When the animation is cleared, a driven field holds its step's sixteen-call value and an undriven field is unchanged |
| AnimationLemmas.FinalFieldRunning | GrafDemo/TransformView.swift:304-330 | The same, for the list `startAnimation` builds with at least one flag on |
| AnimationLemmas.FinalField | GrafDemo/TransformView.swift:304-330 | When the animation is cleared, an enabled field holds sixteen calls' worth of its animator from the identity value, and a disabled field still holds its identity value |
| AnimationLemmas.FinalScale | GrafDemo/TransformView.swift:314-316 | When the animation is cleared, the scale is one increment past (1.5, 0.75) if scaling was enabled, and (1, 1) otherwise |
| AnimationLemmas.ScalerMoved | GrafDemo/TransformView.swift:314-316 | Sixteen calls of the default scaler take (1, 1) to (1.5 + 0.5/15, 0.75 - 0.25/15) |
| AnimationLemmas.FinalRotation | GrafDemo/TransformView.swift:312 | When the animation is cleared, the rotation is 16/15 of `prior + π/12` if rotating was enabled, and 0 otherwise |
| AnimationLemmas.FinalTranslation | GrafDemo/TransformView.swift:308-310 | When the animation is cleared, the translation is one increment past (200, 100) if translating was enabled, and (0, 0) otherwise |
| AnimationLemmas.TranslatorMoved | GrafDemo/TransformView.swift:308-310 | Sixteen calls of the default translator take (0, 0) to (200 + 200/15, 100 + 100/15) |
| View.TransformView.constructor | GrafDemo/TransformView.swift:5-34 | A new view has translation (0, 0), rotation 0, scale (1, 1), no animation, no timer and all three flags on, so `TimerHeld` holds |
| View.TransformView.Reset | GrafDemo/TransformView.swift:36-40 | Restores translation (0, 0), rotation 0 and scale (1, 1), and marks the view for display |
| View.TransformView.TranslationAnimator | GrafDemo/TransformView.swift:215-234 | Returns the step with increment `(to - from) / 15` and sets the translation to `from`. Rotation and scale are unchanged |
| View.TransformView.RotationAnimator | GrafDemo/TransformView.swift:237-251 | Returns the step with increment `(to - from) / 15` and sets the rotation to `from`. Translation and scale are unchanged |
| View.TransformView.ScaleAnimator | GrafDemo/TransformView.swift:254-273 | Returns the step with increment `(to - from) / 15` and sets the scale to `from`. Translation and rotation are unchanged |
| View.TransformView.RunStep | GrafDemo/TransformView.swift:221-272 | One closure call updates the fields as `Advance` says, and returns whether the primary component is past the target |
| View.TransformView.RunComposite | GrafDemo/TransformView.swift:275-301 | One composite call updates the fields, the captured cursor and the result as `CompositeAdvance` says. It marks the view exactly when some step ran |
| View.TransformView.Tick | GrafDemo/TransformView.swift:202-212 | The transform and the stored animation change as `Animation.Tick` says. The timer is dropped exactly when the animation is cleared. The view is marked whenever there was an animation. `TimerHeld` (an animation is stored only while a timer handle is) is preserved |
| View.TransformView.StartAnimation | GrafDemo/TransformView.swift:304-333 | Leaves the identity transform whatever the flags. Stores the composite over the enabled animators in the order scale, rotate, translate, with the rotation target `prior rotation + π/12`. Stores the new timer, so `TimerHeld` holds |

## Left out

- Drawing (`drawBackground`, `drawBorder`, the grid, `applyTransforms`, `drawPath`, `draw`): rendering calls into AppKit and CoreGraphics, with no logic to check.
- `isFlipped`: a coordinate-system flag for the UI.
- The commented-out CoreAnimation version of `startAnimation` and the Swift-migrator attribute helpers: dead code and glue.
- `PDFView.swift`: it only draws page 1 of a PDF document.
- Timer scheduling and invalidation: the 1/30 s run loop is external. The timer is an opaque handle. `StartAnimation` replaces any previous handle without invalidating the old timer, as the code does. The model does not represent the still-running old timer.
- Implicitly unwrapping a nil `animationTimer` inside `tick`: not modelled as a crash. A stale timer left running by a second `startAnimation` keeps calling `tick` after the handle is set to nil, but `animationFunction` is non-nil only while `animationTimer` is (the invariant `TimerHeld`, established by the constructor and `StartAnimation` and preserved by `Tick`), so such a tick returns at the guard before the unwrap.
- Floating-point rounding: `CGFloat` is `real`. "Finishes on call 16" holds in exact arithmetic only.
- π: a parameter of `StartAnimation` rather than the platform constant.
- Redraw: `needsDisplay` is a boolean set by each field write. When the display happens is not modelled. Its value on a new view belongs to `NSView`; the model starts it at false and states nothing about it.
- View.TransformView.Tick: does not state how many ticks an animation lasts; `AnimationLemmas.SessionLength` states that about the pure tick function.
- AnimationLemmas.SessionLength, FinalField, FinalScale, FinalRotation and FinalTranslation: stated for an animation started from the identity transform, as `startAnimation` leaves it, and for a positive rotation target. A target at or below 0 finishes the rotation after one call (`BackwardsFinishesAtOnce`) or never (`FlatNeverFinishes`).
