/** The value-level model of the step-wise animation driver of GrafDemo's
    TransformView: the transform the view renders with, the three
    per-parameter step animators, the sequential composite that chains
    them, and what one timer tick does to the animation.  `CGFloat` is
    modelled as `real`, so all arithmetic here is exact. */
module Animation {

  datatype Option<T> = None | Some(value: T)

  /** `CGPoint` and `CGSize`. */
  datatype Point = Point(x: real, y: real)
  datatype Size = Size(width: real, height: real)

  /** The three transform fields of the view. */
  datatype TransformState = TransformState(translation: Point, rotation: real, scale: Size)

  /** Number of increments a step animator divides its distance into. */
  const AnimationSteps: real := 15.0

  /** The values `reset` restores: no translation, no rotation, unit scale. */
  function Identity(): TransformState {
    TransformState(Point(0.0, 0.0), 0.0, Size(1.0, 1.0))
  }

  /** Which transform field a step animator drives. */
  datatype Kind = Translation | Rotation | Scaling

  /** One step animator, with what its closure captures made explicit:
      where it started, its target and the increment added per call. */
  datatype Step =
    | TranslationStep(fromPoint: Point, toPoint: Point, deltaPoint: Point)
    | RotationStep(fromAngle: real, toAngle: real, deltaAngle: real)
    | ScaleStep(fromSize: Size, toSize: Size, deltaSize: Size)

  function KindOf(s: Step): Kind {
    match s
    case TranslationStep(_, _, _) => Translation
    case RotationStep(_, _, _) => Rotation
    case ScaleStep(_, _, _) => Scaling
  }

  /** The steps `translationAnimator`, `rotationAnimator` and `scaleAnimator`
      return: the increment is computed once, component-wise. */
  function MakeTranslation(from: Point, to: Point): (s: Step)
    ensures s.TranslationStep? && s.fromPoint == from && s.toPoint == to
    ensures from.x + AnimationSteps * s.deltaPoint.x == to.x
    ensures from.y + AnimationSteps * s.deltaPoint.y == to.y
  {
    TranslationStep(from, to, Point((to.x - from.x) / AnimationSteps, (to.y - from.y) / AnimationSteps))
  }

  function MakeRotation(from: real, to: real): (s: Step)
    ensures s.RotationStep? && s.fromAngle == from && s.toAngle == to
    ensures from + AnimationSteps * s.deltaAngle == to
  {
    RotationStep(from, to, (to - from) / AnimationSteps)
  }

  function MakeScale(from: Size, to: Size): (s: Step)
    ensures s.ScaleStep? && s.fromSize == from && s.toSize == to
    ensures from.width + AnimationSteps * s.deltaSize.width == to.width
    ensures from.height + AnimationSteps * s.deltaSize.height == to.height
  {
    ScaleStep(from, to, Size((to.width - from.width) / AnimationSteps, (to.height - from.height) / AnimationSteps))
  }

  /** A step whose increment is the one its animator computes from its
      endpoints. */
  predicate Made(s: Step) {
    match s
    case TranslationStep(from, to, _) => s == MakeTranslation(from, to)
    case RotationStep(from, to, _) => s == MakeRotation(from, to)
    case ScaleStep(from, to, _) => s == MakeScale(from, to)
  }

  /** The component completion is tested on: x, the angle, the width. */
  function Primary(t: TransformState, k: Kind): real {
    match k
    case Translation => t.translation.x
    case Rotation => t.rotation
    case Scaling => t.scale.width
  }

  function PrimaryFrom(s: Step): real {
    match s
    case TranslationStep(from, _, _) => from.x
    case RotationStep(from, _, _) => from
    case ScaleStep(from, _, _) => from.width
  }

  function PrimaryTo(s: Step): real {
    match s
    case TranslationStep(_, to, _) => to.x
    case RotationStep(_, to, _) => to
    case ScaleStep(_, to, _) => to.width
  }

  function PrimaryDelta(s: Step): real {
    match s
    case TranslationStep(_, _, delta) => delta.x
    case RotationStep(_, _, delta) => delta
    case ScaleStep(_, _, delta) => delta.width
  }

  /** What creating the step does to the transform: its field is set to
      where the step starts. */
  function Enter(t: TransformState, s: Step): (r: TransformState)
    ensures Primary(r, KindOf(s)) == PrimaryFrom(s)
    ensures KindOf(s) != Translation ==> r.translation == t.translation
    ensures KindOf(s) != Rotation ==> r.rotation == t.rotation
    ensures KindOf(s) != Scaling ==> r.scale == t.scale
  {
    match s
    case TranslationStep(from, _, _) => t.(translation := from)
    case RotationStep(from, _, _) => t.(rotation := from)
    case ScaleStep(from, _, _) => t.(scale := from)
  }

  /** What one call of the step closure does to the transform: the
      increment is added to its own field, component-wise, and the other
      two fields keep their values. */
  function Advance(t: TransformState, s: Step): (r: TransformState)
    ensures Primary(r, KindOf(s)) == Primary(t, KindOf(s)) + PrimaryDelta(s)
    ensures KindOf(s) != Translation ==> r.translation == t.translation
    ensures KindOf(s) != Rotation ==> r.rotation == t.rotation
    ensures KindOf(s) != Scaling ==> r.scale == t.scale
  {
    match s
    case TranslationStep(_, _, delta) =>
      t.(translation := Point(t.translation.x + delta.x, t.translation.y + delta.y))
    case RotationStep(_, _, delta) =>
      t.(rotation := t.rotation + delta)
    case ScaleStep(_, _, delta) =>
      t.(scale := Size(t.scale.width + delta.width, t.scale.height + delta.height))
  }

  /** What the step closure returns after its increment: finished exactly
      when the primary component is strictly past the target. */
  predicate Done(t: TransformState, s: Step)
    ensures s.TranslationStep? ==> (Done(t, s) <==> t.translation.x > s.toPoint.x)
    ensures s.RotationStep? ==> (Done(t, s) <==> t.rotation > s.toAngle)
    ensures s.ScaleStep? ==> (Done(t, s) <==> t.scale.width > s.toSize.width)
  {
    Primary(t, KindOf(s)) > PrimaryTo(s)
  }

  /** The closure `compositeAnimator` returns, with its captured cursor
      made explicit.  `index` is `animatorIndex`; the step it holds as
      `currentAnimation` is `steps[index]`, or the last step once the
      index has run past the end. */
  datatype Composite = Composite(steps: seq<Step>, index: nat)

  function Current(c: Composite): (s: Step)
    requires |c.steps| > 0
    ensures s in c.steps
    ensures c.index < |c.steps| ==> s == c.steps[c.index]
  {
    c.steps[if c.index < |c.steps| then c.index else |c.steps| - 1]
  }

  /** The transform after a call, the composite's captured state after it,
      and what the call returned. */
  datatype Outcome = Outcome(state: TransformState, next: Composite, done: bool)

  /** One call of the composite closure. */
  function CompositeAdvance(t: TransformState, c: Composite): (r: Outcome)
    ensures r.next.steps == c.steps
    ensures |c.steps| == 0 ==> r == Outcome(t, c, true)
    ensures |c.steps| > 0 ==> r.state == Advance(t, Current(c))
    ensures r.next.index == c.index || r.next.index == c.index + 1
    ensures c.index < |c.steps| && !r.done ==> r.next.index < |r.next.steps|
  {
    if |c.steps| == 0 then
      Outcome(t, c, true)
    else
      var s := Current(c);
      var t' := Advance(t, s);
      if Done(t', s) then
        var c' := c.(index := c.index + 1);
        Outcome(t', c', c'.index >= |c.steps|)
      else
        Outcome(t', c, false)
  }

  /** The part of the view an animation tick reads and writes: the
      transform and the stored animation function. */
  datatype Animated = Animated(transform: TransformState, animation: Option<Composite>)

  /** One timer tick: nothing without an animation; otherwise the
      composite runs once, and the animation is cleared when it is done. */
  function Tick(a: Animated): (r: Animated)
    ensures a.animation.None? ==> r == a
    ensures a.animation.Some? ==> r.transform == CompositeAdvance(a.transform, a.animation.value).state
    ensures a.animation.Some? ==> (r.animation.None? <==> CompositeAdvance(a.transform, a.animation.value).done)
    ensures r.animation.Some? ==> r.animation == Some(CompositeAdvance(a.transform, a.animation.value).next)
  {
    match a.animation
    case None => a
    case Some(c) =>
      var o := CompositeAdvance(a.transform, c);
      if o.done then Animated(o.state, None) else Animated(o.state, Some(o.next))
  }

  /** The state after `k` ticks. */
  function Ticks(a: Animated, k: nat): Animated {
    if k == 0 then a else Tick(Ticks(a, k - 1))
  }

  /** The state after `k` calls of one step closure. */
  function AdvanceN(t: TransformState, s: Step, k: nat): TransformState {
    if k == 0 then t else Advance(AdvanceN(t, s, k - 1), s)
  }

  /** The three animators `startAnimation` creates, with their fixed
      endpoints; the rotation target is the rotation before the animation
      started plus a twelfth of `pi`. */
  function Scaler(): Step { MakeScale(Size(1.0, 1.0), Size(1.5, 0.75)) }
  function Rotator(priorRotation: real, pi: real): Step { MakeRotation(0.0, priorRotation + pi / 12.0) }
  function Translator(): Step { MakeTranslation(Point(0.0, 0.0), Point(200.0, 100.0)) }

  /** The list `startAnimation` hands to the composite: the enabled
      animators, in the order scale, rotate, translate. */
  function Plan(shouldScale: bool, shouldRotate: bool, shouldTranslate: bool,
                priorRotation: real, pi: real): (r: seq<Step>)
    ensures |r| <= 3
    ensures r == [] <==> !(shouldScale || shouldRotate || shouldTranslate)
    ensures shouldScale ==> r[0] == Scaler()
    ensures shouldTranslate ==> r[|r| - 1] == Translator()
    ensures Rotator(priorRotation, pi) in r <==> shouldRotate
  {
    (if shouldScale then [Scaler()] else [])
    + (if shouldRotate then [Rotator(priorRotation, pi)] else [])
    + (if shouldTranslate then [Translator()] else [])
  }
}
