/** The animation state machine of GrafDemo's `TransformView`: a view whose
    translation, rotation and scale fields are updated in place by step
    animators, chained by a composite and driven by a periodic timer. */
module View {
  import opened Animation

  /** The timer `startAnimation` schedules, as an opaque handle supplied by
      the run loop that owns it. */
  datatype TimerHandle = TimerHandle(id: nat)

  class TransformView {
    var translation: Point
    var rotation: real
    var scale: Size
    /** Set by every write of a transform field and by a finished tick.
        Its value before the first write belongs to `NSView`; the model
        starts it at false. */
    var needsDisplay: bool

    /** The running composite animation, if any, and the timer driving it. */
    var animationFunction: Option<Composite>
    var animationTimer: Option<TimerHandle>

    /** Which animators `startAnimation` puts in the composite. */
    var shouldTranslate: bool
    var shouldRotate: bool
    var shouldScale: bool

    function State(): TransformState
      reads this
    {
      TransformState(translation, rotation, scale)
    }

    /** An animation is stored only while a timer is held, so the unwrap
        of `animationTimer` in `tick` happens only when a handle exists:
        once the handle is dropped the stored animation is gone too, and a
        stale timer's tick returns at the guard. */
    predicate TimerHeld()
      reads this
    {
      animationFunction.Some? ==> animationTimer.Some?
    }

    /** A view with its fields at their declared initial values. */
    constructor ()
      ensures State() == Identity()
      ensures animationFunction == None && animationTimer == None
      ensures shouldTranslate && shouldRotate && shouldScale
      ensures TimerHeld()
    {
      translation := Point(0.0, 0.0);
      rotation := 0.0;
      scale := Size(1.0, 1.0);
      needsDisplay := false;
      animationFunction := None;
      animationTimer := None;
      shouldTranslate, shouldRotate, shouldScale := true, true, true;
    }

    method Reset()
      modifies this`translation, this`rotation, this`scale, this`needsDisplay
      ensures State() == Identity()
      ensures needsDisplay
    {
      translation := Point(0.0, 0.0);
      needsDisplay := true;
      rotation := 0.0;
      scale := Size(1.0, 1.0);
    }

    /** Creating a translation animator moves the translation to `from`. */
    method TranslationAnimator(from: Point, to: Point) returns (step: Step)
      modifies this`translation, this`needsDisplay
      ensures step == MakeTranslation(from, to) && Made(step)
      ensures State() == Enter(old(State()), step)
      ensures needsDisplay
    {
      translation := from;
      needsDisplay := true;
      var delta := Point((to.x - from.x) / AnimationSteps, (to.y - from.y) / AnimationSteps);
      step := TranslationStep(from, to, delta);
    }

    /** Creating a rotation animator sets the rotation to `from`. */
    method RotationAnimator(from: real, to: real) returns (step: Step)
      modifies this`rotation, this`needsDisplay
      ensures step == MakeRotation(from, to) && Made(step)
      ensures State() == Enter(old(State()), step)
      ensures needsDisplay
    {
      rotation := from;
      needsDisplay := true;
      var delta := (to - from) / AnimationSteps;
      step := RotationStep(from, to, delta);
    }

    /** Creating a scale animator sets the scale to `from`. */
    method ScaleAnimator(from: Size, to: Size) returns (step: Step)
      modifies this`scale, this`needsDisplay
      ensures step == MakeScale(from, to) && Made(step)
      ensures State() == Enter(old(State()), step)
      ensures needsDisplay
    {
      scale := from;
      needsDisplay := true;
      var delta := Size((to.width - from.width) / AnimationSteps, (to.height - from.height) / AnimationSteps);
      step := ScaleStep(from, to, delta);
    }

    /** One call of a step closure: add the increment to the step's own
      field and report whether its primary component is past the target. */
    method RunStep(step: Step) returns (finished: bool)
      modifies this`translation, this`rotation, this`scale, this`needsDisplay
      ensures State() == Advance(old(State()), step)
      ensures finished == Done(State(), step)
      ensures needsDisplay
    {
      match step
      case TranslationStep(_, to, delta) =>
        translation := translation.(x := translation.x + delta.x);
        translation := translation.(y := translation.y + delta.y);
        needsDisplay := true;
        finished := translation.x > to.x;
      case RotationStep(_, to, delta) =>
        rotation := rotation + delta;
        needsDisplay := true;
        finished := rotation > to;
      case ScaleStep(_, to, delta) =>
        scale := scale.(width := scale.width + delta.width);
        scale := scale.(height := scale.height + delta.height);
        needsDisplay := true;
        finished := scale.width > to.width;
    }

    /** One call of the composite closure with captured state `c`; `next`
      is that state afterwards. */
    method RunComposite(c: Composite) returns (done: bool, next: Composite)
      modifies this`translation, this`rotation, this`scale, this`needsDisplay
      ensures Outcome(State(), next, done) == CompositeAdvance(old(State()), c)
      ensures needsDisplay == (old(needsDisplay) || |c.steps| > 0)
    {
      if |c.steps| == 0 {
        return true, c;
      }
      var current := Current(c);
      var finished := RunStep(current);
      if finished {
        next := c.(index := c.index + 1);
        if next.index >= |c.steps| {
          return true, next;
        }
        return false, next;
      }
      return false, c;
    }

    /** One timer tick. */
    method Tick()
      modifies this`translation, this`rotation, this`scale, this`needsDisplay
      modifies this`animationFunction, this`animationTimer
      ensures Animated(State(), animationFunction) == Animation.Tick(old(Animated(State(), animationFunction)))
      ensures animationTimer == if old(animationFunction).Some? && animationFunction.None? then None
                                else old(animationTimer)
      ensures needsDisplay == (old(needsDisplay) || old(animationFunction).Some?)
      ensures old(TimerHeld()) ==> TimerHeld()
    {
      match animationFunction
      case None =>
      case Some(c) =>
        var done, next := RunComposite(c);
        if done {
          animationTimer := None;
          animationFunction := None;
          needsDisplay := true;
        } else {
          animationFunction := Some(next);
        }
    }

    /** Resets the transform through the three animators and stores a
      composite over the enabled ones; `pi` stands for the constant the
      rotation target is computed from, and `timer` for the newly
      scheduled timer, which replaces any previous handle. */
    method StartAnimation(pi: real, timer: TimerHandle)
      modifies this`translation, this`rotation, this`scale, this`needsDisplay
      modifies this`animationFunction, this`animationTimer
      ensures State() == Identity()
      ensures animationFunction == Some(Composite(Plan(shouldScale, shouldRotate, shouldTranslate, old(rotation), pi), 0))
      ensures animationTimer == Some(timer)
      ensures needsDisplay
      ensures TimerHeld()
    {
      var translator := TranslationAnimator(Point(0.0, 0.0), Point(200.0, 100.0));
      var rotator := RotationAnimator(0.0, rotation + pi / 12.0);
      var scaler := ScaleAnimator(Size(1.0, 1.0), Size(1.5, 0.75));

      var things: seq<Step> := [];
      if shouldScale {
        things := things + [scaler];
      }
      if shouldRotate {
        things := things + [rotator];
      }
      if shouldTranslate {
        things := things + [translator];
      }

      assert translator == Translator() && scaler == Scaler();
      assert rotator == Rotator(old(rotation), pi);
      assert things == Plan(shouldScale, shouldRotate, shouldTranslate, old(rotation), pi);
      animationFunction := Some(Composite(things, 0));
      animationTimer := Some(timer);
    }
  }
}
