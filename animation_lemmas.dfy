/** Properties of the animation model: the exact call on which a step
    animator finishes, the cases where its completion test misfires, the
    composite's cursor rules, the list `startAnimation` builds, and the
    number of ticks a whole animation lasts. */
module AnimationLemmas {
  import opened Animation

  /** A step about to run from its own start: its increment is the one its
      animator computed, its field holds its start value, and its primary
      component has to move upwards. */
  predicate Fresh(t: TransformState, s: Step) {
    Made(s) && Primary(t, KindOf(s)) == PrimaryFrom(s) && PrimaryFrom(s) < PrimaryTo(s)
  }

  /** The call on which a fresh step first reports "finished". */
  function CallsToFinish(): nat { 16 }

  predicate DistinctKinds(steps: seq<Step>) {
    forall i, j :: 0 <= i < j < |steps| ==> KindOf(steps[i]) != KindOf(steps[j])
  }

  /** Creating a step puts its whole field, every component, at the
      step's start value. */
  lemma EnterSets(t: TransformState, s: Step)
    ensures s.TranslationStep? ==> Enter(t, s).translation == s.fromPoint
    ensures s.RotationStep? ==> Enter(t, s).rotation == s.fromAngle
    ensures s.ScaleStep? ==> Enter(t, s).scale == s.fromSize
  {
  }

  /** One call of a step adds its increment to every component of its own
      field. */
  lemma AdvanceSets(t: TransformState, s: Step)
    ensures s.TranslationStep? ==>
      Advance(t, s).translation == Point(t.translation.x + s.deltaPoint.x, t.translation.y + s.deltaPoint.y)
    ensures s.RotationStep? ==> Advance(t, s).rotation == t.rotation + s.deltaAngle
    ensures s.ScaleStep? ==>
      Advance(t, s).scale == Size(t.scale.width + s.deltaSize.width, t.scale.height + s.deltaSize.height)
  {
  }

  /** After `k` calls each component of the step's own field has moved by
      `k` increments. */
  lemma {:induction false} AdvanceNOwn(t: TransformState, s: Step, k: nat)
    ensures s.TranslationStep? ==>
      AdvanceN(t, s, k).translation == Point(t.translation.x + (k as real) * s.deltaPoint.x,
                                             t.translation.y + (k as real) * s.deltaPoint.y)
    ensures s.RotationStep? ==> AdvanceN(t, s, k).rotation == t.rotation + (k as real) * s.deltaAngle
    ensures s.ScaleStep? ==>
      AdvanceN(t, s, k).scale == Size(t.scale.width + (k as real) * s.deltaSize.width,
                                      t.scale.height + (k as real) * s.deltaSize.height)
  {
    if k > 0 {
      AdvanceNOwn(t, s, k - 1);
      var j := (k - 1) as real;
      match s
      case TranslationStep(_, _, d) =>
        assert j * d.x + d.x == (k as real) * d.x;
        assert j * d.y + d.y == (k as real) * d.y;
      case RotationStep(_, _, d) =>
        assert j * d + d == (k as real) * d;
      case ScaleStep(_, _, d) =>
        assert j * d.width + d.width == (k as real) * d.width;
        assert j * d.height + d.height == (k as real) * d.height;
    }
  }

  /** However many times a step is called, the other two fields keep their
      values. */
  lemma {:induction false} AdvanceNOthers(t: TransformState, s: Step, k: nat)
    ensures KindOf(s) != Translation ==> AdvanceN(t, s, k).translation == t.translation
    ensures KindOf(s) != Rotation ==> AdvanceN(t, s, k).rotation == t.rotation
    ensures KindOf(s) != Scaling ==> AdvanceN(t, s, k).scale == t.scale
  {
    if k > 0 {
      AdvanceNOthers(t, s, k - 1);
    }
  }

  /** The primary component after `k` calls: `from + k * (to - from) / 15`. */
  lemma PrimaryAfter(t: TransformState, s: Step, k: nat)
    requires Made(s) && Primary(t, KindOf(s)) == PrimaryFrom(s)
    ensures Primary(AdvanceN(t, s, k), KindOf(s))
            == PrimaryFrom(s) + (k as real) * ((PrimaryTo(s) - PrimaryFrom(s)) / AnimationSteps)
  {
    PrimaryMoves(t, s, k);
    MadeDelta(s);
  }

  /** The primary increment of a step is a fifteenth of its primary
      distance. */
  lemma MadeDelta(s: Step)
    requires Made(s)
    ensures PrimaryDelta(s) == (PrimaryTo(s) - PrimaryFrom(s)) / AnimationSteps
  {
  }

  /** The primary component moves by one increment per call. */
  lemma {:induction false} PrimaryMoves(t: TransformState, s: Step, k: nat)
    ensures Primary(AdvanceN(t, s, k), KindOf(s)) == Primary(t, KindOf(s)) + (k as real) * PrimaryDelta(s)
  {
    if k > 0 {
      PrimaryMoves(t, s, k - 1);
      var j := (k - 1) as real;
      assert j * PrimaryDelta(s) + PrimaryDelta(s) == (k as real) * PrimaryDelta(s);
    }
  }

  /** `k` increments of a positive `d` stay within fifteen of them while
      `k <= 15`. */
  lemma {:induction false} AtMostFifteen(k: nat, d: real)
    requires d > 0.0 && k <= 15
    ensures (k as real) * d <= 15.0 * d
    decreases 15 - k
  {
    if k < 15 {
      AtMostFifteen(k + 1, d);
      assert ((k + 1) as real) * d == (k as real) * d + d;
    }
  }

  /** ... and reach sixteen of them once `k >= 16`. */
  lemma {:induction false} AtLeastSixteen(k: nat, d: real)
    requires d > 0.0 && k >= 16
    ensures (k as real) * d >= 16.0 * d
  {
    if k > 16 {
      AtLeastSixteen(k - 1, d);
      assert (k as real) * d == ((k - 1) as real) * d + d;
    }
  }

  /** `from + k * (to - from) / 15` is past `to` exactly when `k > 15`. */
  lemma PastTarget(from: real, to: real, k: nat)
    requires from < to
    ensures from + (k as real) * ((to - from) / AnimationSteps) > to <==> k > 15
  {
    var d := (to - from) / AnimationSteps;
    assert to == from + 15.0 * d;
    if k > 15 {
      AtLeastSixteen(k, d);
    } else {
      AtMostFifteen(k, d);
    }
  }

  /** In exact arithmetic, a step that must move its primary component
      upwards reports "not finished" on calls 1 to 15 (call 15 lands
      exactly on the target) and "finished" from call 16 on. */
  lemma FinishingCall(t: TransformState, s: Step, k: nat)
    requires Fresh(t, s)
    ensures Done(AdvanceN(t, s, k), s) <==> k >= CallsToFinish()
    ensures k == 15 ==> Primary(AdvanceN(t, s, k), KindOf(s)) == PrimaryTo(s)
  {
    PrimaryAfter(t, s, k);
    PastTarget(PrimaryFrom(s), PrimaryTo(s), k);
  }

  /** The default translation animator, from the origin to (200, 100):
      after one call the translation is (200/15, 100/15) and the step is
      not finished; after sixteen calls x is past 200 and it is. */
  lemma TranslatorScenario(t: TransformState)
    requires t.translation == Point(0.0, 0.0)
    ensures AdvanceN(t, Translator(), 1).translation == Point(200.0 / 15.0, 100.0 / 15.0)
    ensures !Done(AdvanceN(t, Translator(), 1), Translator())
    ensures AdvanceN(t, Translator(), CallsToFinish()).translation.x > 200.0
    ensures Done(AdvanceN(t, Translator(), CallsToFinish()), Translator())
  {
    FinishingCall(t, Translator(), 1);
    FinishingCall(t, Translator(), CallsToFinish());
    AdvanceNOwn(t, Translator(), 1);
  }

  /** The completion test's blind spot: when the primary component starts
      on its target, the increment is zero and the step never finishes,
      however many times it is called. */
  lemma FlatNeverFinishes(t: TransformState, s: Step, k: nat)
    requires Made(s) && Primary(t, KindOf(s)) == PrimaryFrom(s)
    requires PrimaryFrom(s) == PrimaryTo(s)
    ensures !Done(AdvanceN(t, s, k), s)
  {
    PrimaryAfter(t, s, k);
  }

  /** The other direction: when the primary component has to move
      downwards, the value is already past the target after the first call,
      so the step finishes one fifteenth of the way along. */
  lemma BackwardsFinishesAtOnce(t: TransformState, s: Step)
    requires Made(s) && Primary(t, KindOf(s)) == PrimaryFrom(s)
    requires PrimaryFrom(s) > PrimaryTo(s)
    ensures Done(Advance(t, s), s)
    ensures Primary(Advance(t, s), KindOf(s)) > PrimaryTo(s)
  {
  }

  /** The y component of a translation and the height of a scale never
      take part in the completion test. */
  lemma CompletionIgnoresSecondary(t: TransformState, s: Step, y: real, height: real)
    ensures Done(t.(translation := Point(t.translation.x, y), scale := Size(t.scale.width, height)), s)
            == Done(t, s)
  {
  }

  /** The composite's cursor rules, for a cursor on a step of the list. */
  lemma CursorRules(t: TransformState, c: Composite)
    requires c.index < |c.steps|
    ensures var s, o := c.steps[c.index], CompositeAdvance(t, c);
      o.state == Advance(t, s) &&
      (!Done(o.state, s) ==> o.next == c && !o.done) &&
      (Done(o.state, s) && c.index + 1 == |c.steps| ==> o.done) &&
      (Done(o.state, s) && c.index + 1 < |c.steps| ==> o.next == c.(index := c.index + 1) && !o.done)
  {
  }

  /** Without a stored animation a tick changes nothing, however many
      ticks there are. */
  lemma {:induction false} IdleTicks(t: TransformState, k: nat)
    ensures Ticks(Animated(t, None), k) == Animated(t, None)
  {
    if k > 0 {
      IdleTicks(t, k - 1);
    }
  }

  /** A composite over no steps reports "done" on every call and changes
      nothing, so the tick that runs it clears the animation and leaves the
      transform as it was. */
  lemma EmptyComposite(t: TransformState, i: nat)
    ensures CompositeAdvance(t, Composite([], i)) == Outcome(t, Composite([], i), true)
    ensures Tick(Animated(t, Some(Composite([], i)))) == Animated(t, None)
  {
  }

  /** A tick that runs a composite keeps it exactly when the composite
      reports "not done", and clears it otherwise; either way the transform
      is the one the composite call produced. */
  lemma TickRuns(t: TransformState, c: Composite)
    ensures var o, r := CompositeAdvance(t, c), Tick(Animated(t, Some(c)));
      r.transform == o.state &&
      (r.animation.Some? <==> !o.done) &&
      (!o.done ==> r.animation == Some(o.next))
  {
  }

  /** Ticks compose. */
  lemma {:induction false} TicksAdd(a: Animated, p: nat, q: nat)
    ensures Ticks(a, p + q) == Ticks(Ticks(a, p), q)
  {
    if q > 0 {
      TicksAdd(a, p, q - 1);
    }
  }

  /** While the current step has not finished, each tick runs it once and
      the cursor stays. */
  lemma {:induction false} PhaseTicks(t: TransformState, c: Composite, k: nat)
    requires c.index < |c.steps| && Fresh(t, c.steps[c.index])
    requires k <= 15
    ensures Ticks(Animated(t, Some(c)), k) == Animated(AdvanceN(t, c.steps[c.index], k), Some(c))
  {
    if k > 0 {
      PhaseTicks(t, c, k - 1);
      FinishingCall(t, c.steps[c.index], k);
    }
  }

  /** The sixteenth tick of a step finishes it: the cursor moves on, or the
      animation is cleared when that was the last step. */
  lemma PhaseEnd(t: TransformState, c: Composite)
    requires c.index < |c.steps| && Fresh(t, c.steps[c.index])
    ensures Ticks(Animated(t, Some(c)), CallsToFinish())
            == Animated(AdvanceN(t, c.steps[c.index], CallsToFinish()),
                        if c.index + 1 < |c.steps| then Some(c.(index := c.index + 1)) else None)
  {
    PhaseTicks(t, c, 15);
    FinishingCall(t, c.steps[c.index], CallsToFinish());
  }

  /** `t` and `u` hold the same value in the field of kind `k`. */
  predicate SameField(t: TransformState, u: TransformState, k: Kind) {
    match k
    case Translation => t.translation == u.translation
    case Rotation => t.rotation == u.rotation
    case Scaling => t.scale == u.scale
  }

  /** What a step does to its own field depends on that field alone. */
  lemma SameFieldAfter(t: TransformState, u: TransformState, s: Step, n: nat)
    requires SameField(t, u, KindOf(s))
    ensures SameField(AdvanceN(t, s, n), AdvanceN(u, s, n), KindOf(s))
  {
    AdvanceNOwn(t, s, n);
    AdvanceNOwn(u, s, n);
  }

  /** A step leaves every other field alone. */
  lemma FieldElsewhere(t: TransformState, s: Step, n: nat, k: Kind)
    requires k != KindOf(s)
    ensures SameField(AdvanceN(t, s, n), t, k)
    ensures Primary(AdvanceN(t, s, n), k) == Primary(t, k)
  {
    AdvanceNOthers(t, s, n);
  }

  /** The conditions under which the remaining steps of a composite run
      one after another, sixteen ticks each. */
  predicate Runnable(t: TransformState, c: Composite) {
    c.index < |c.steps| && DistinctKinds(c.steps) &&
    forall j :: c.index <= j < |c.steps| ==> Fresh(t, c.steps[j])
  }

  /** The composite after the sixteen ticks of its current step, when
      another step follows. */
  lemma NextPhase(t: TransformState, c: Composite)
    requires Runnable(t, c) && c.index + 1 < |c.steps|
    ensures Ticks(Animated(t, Some(c)), CallsToFinish())
            == Animated(AdvanceN(t, c.steps[c.index], CallsToFinish()), Some(c.(index := c.index + 1)))
    ensures Runnable(AdvanceN(t, c.steps[c.index], CallsToFinish()), c.(index := c.index + 1))
  {
    var s := c.steps[c.index];
    PhaseEnd(t, c);
    forall j | c.index + 1 <= j < |c.steps|
      ensures Fresh(AdvanceN(t, s, CallsToFinish()), c.steps[j])
    {
      FieldElsewhere(t, s, CallsToFinish(), KindOf(c.steps[j]));
    }
  }

  /** The number of ticks the remaining steps of a composite take. */
  function Remaining(c: Composite): nat
    requires c.index < |c.steps|
  {
    16 * (|c.steps| - c.index)
  }

  /** A runnable composite is still stored on every tick before its
      remaining steps have had sixteen ticks each. */
  lemma {:induction false} RemainingAlive(t: TransformState, c: Composite, k: nat)
    requires Runnable(t, c) && k < Remaining(c)
    ensures Ticks(Animated(t, Some(c)), k).animation.Some?
    decreases |c.steps| - c.index
  {
    if k < CallsToFinish() {
      PhaseTicks(t, c, k);
    } else {
      var c' := c.(index := c.index + 1);
      NextPhase(t, c);
      RemainingAlive(AdvanceN(t, c.steps[c.index], CallsToFinish()), c', k - CallsToFinish());
      TicksAdd(Animated(t, Some(c)), CallsToFinish(), k - CallsToFinish());
    }
  }

  /** ... and it is cleared on the last of those ticks. */
  lemma {:induction false} RemainingCleared(t: TransformState, c: Composite)
    requires Runnable(t, c)
    ensures Ticks(Animated(t, Some(c)), Remaining(c)).animation == None
    decreases |c.steps| - c.index
  {
    PhaseEnd(t, c);
    if c.index + 1 < |c.steps| {
      var c' := c.(index := c.index + 1);
      NextPhase(t, c);
      RemainingCleared(AdvanceN(t, c.steps[c.index], CallsToFinish()), c');
      TicksAdd(Animated(t, Some(c)), CallsToFinish(), Remaining(c'));
    }
  }

  /** When a runnable composite is cleared, a field no remaining step
      drives is as it was. */
  lemma {:induction false} RemainingUntouched(t: TransformState, c: Composite, k: Kind)
    requires Runnable(t, c)
    requires forall j :: c.index <= j < |c.steps| ==> KindOf(c.steps[j]) != k
    ensures SameField(Ticks(Animated(t, Some(c)), Remaining(c)).transform, t, k)
    decreases |c.steps| - c.index
  {
    var s := c.steps[c.index];
    PhaseEnd(t, c);
    FieldElsewhere(t, s, CallsToFinish(), k);
    if c.index + 1 < |c.steps| {
      var c' := c.(index := c.index + 1);
      NextPhase(t, c);
      RemainingUntouched(AdvanceN(t, s, CallsToFinish()), c', k);
      TicksAdd(Animated(t, Some(c)), CallsToFinish(), Remaining(c'));
    }
  }

  /** When a runnable composite is cleared, the field of each remaining
      step holds what sixteen calls of that step make of it. */
  lemma {:induction false} RemainingFinal(t: TransformState, c: Composite, j: nat)
    requires Runnable(t, c) && c.index <= j < |c.steps|
    ensures SameField(Ticks(Animated(t, Some(c)), Remaining(c)).transform,
                      AdvanceN(t, c.steps[j], CallsToFinish()), KindOf(c.steps[j]))
    decreases |c.steps| - c.index
  {
    var s := c.steps[c.index];
    PhaseEnd(t, c);
    if c.index + 1 < |c.steps| {
      var c' := c.(index := c.index + 1);
      var t' := AdvanceN(t, s, CallsToFinish());
      NextPhase(t, c);
      TicksAdd(Animated(t, Some(c)), CallsToFinish(), Remaining(c'));
      if j == c.index {
        RemainingUntouched(t', c', KindOf(s));
      } else {
        RemainingFinal(t', c', j);
        FieldElsewhere(t, s, CallsToFinish(), KindOf(c.steps[j]));
        SameFieldAfter(t', t, c.steps[j], CallsToFinish());
      }
    }
  }

  function Count(b: bool): nat { if b then 1 else 0 }

  /** The list `startAnimation` builds holds exactly the enabled animators,
      in the order scale, rotate, translate, each with the increment its
      animator computes. */
  lemma PlanShape(shouldScale: bool, shouldRotate: bool, shouldTranslate: bool, priorRotation: real, pi: real)
    ensures var p := Plan(shouldScale, shouldRotate, shouldTranslate, priorRotation, pi);
      |p| == Count(shouldScale) + Count(shouldRotate) + Count(shouldTranslate) &&
      (shouldScale ==> p[0] == Scaler()) &&
      (shouldRotate ==> p[Count(shouldScale)] == Rotator(priorRotation, pi)) &&
      (shouldTranslate ==> p[Count(shouldScale) + Count(shouldRotate)] == Translator()) &&
      (forall i :: 0 <= i < |p| ==> Made(p[i])) &&
      (forall i :: 0 <= i < |p| ==>
         ((KindOf(p[i]) == Scaling ==> shouldScale) &&
          (KindOf(p[i]) == Rotation ==> shouldRotate) &&
          (KindOf(p[i]) == Translation ==> shouldTranslate))) &&
      DistinctKinds(p)
  {
  }

  /** The composite `startAnimation` stores, over a non-empty list, is
      runnable from the identity transform. */
  lemma PlanRunnable(t: TransformState, shouldScale: bool, shouldRotate: bool, shouldTranslate: bool, priorRotation: real, pi: real)
    requires t == Identity()
    requires shouldRotate ==> priorRotation + pi / 12.0 > 0.0
    requires shouldScale || shouldRotate || shouldTranslate
    ensures Runnable(t, Composite(Plan(shouldScale, shouldRotate, shouldTranslate, priorRotation, pi), 0))
  {
    var p := Plan(shouldScale, shouldRotate, shouldTranslate, priorRotation, pi);
    PlanShape(shouldScale, shouldRotate, shouldTranslate, priorRotation, pi);
    forall j | 0 <= j < |p|
      ensures Fresh(t, p[j])
    {
      assert KindOf(p[j]) == Scaling ==> p[j] == Scaler();
      assert KindOf(p[j]) == Rotation ==> p[j] == Rotator(priorRotation, pi);
      assert KindOf(p[j]) == Translation ==> p[j] == Translator();
    }
  }

  /** The transform and animation after the last tick of an animation
      started from `t` with the given flags. */
  function Finish(t: TransformState, shouldScale: bool, shouldRotate: bool, shouldTranslate: bool,
                  priorRotation: real, pi: real): Animated
  {
    var n := Count(shouldScale) + Count(shouldRotate) + Count(shouldTranslate);
    Ticks(Animated(t, Some(Composite(Plan(shouldScale, shouldRotate, shouldTranslate, priorRotation, pi), 0))),
          if n == 0 then 1 else 16 * n)
  }

  /** With nothing enabled, the first tick clears the animation and leaves
      the identity transform as it is. */
  lemma EmptyPlanFinish(t: TransformState, priorRotation: real, pi: real)
    ensures Finish(t, false, false, false, priorRotation, pi) == Animated(t, None)
  {
    var a := Animated(t, Some(Composite(Plan(false, false, false, priorRotation, pi), 0)));
    assert Ticks(a, 1) == Tick(a);
  }

  /** Started from the identity transform `startAnimation` leaves behind,
      an animation with `n` enabled animators is still stored on ticks
      `0 .. 16 * n - 1` and cleared on tick `16 * n`; with none enabled it
      is cleared on the first tick.  The rotation animator needs a
      positive target to finish this way. */
  lemma SessionLength(t: TransformState, shouldScale: bool, shouldRotate: bool, shouldTranslate: bool, priorRotation: real, pi: real)
    requires t == Identity()
    requires shouldRotate ==> priorRotation + pi / 12.0 > 0.0
    ensures var n := Count(shouldScale) + Count(shouldRotate) + Count(shouldTranslate);
      var last := if n == 0 then 1 else 16 * n;
      var a := Animated(t, Some(Composite(Plan(shouldScale, shouldRotate, shouldTranslate, priorRotation, pi), 0)));
      (forall k :: 0 <= k < last ==> Ticks(a, k).animation.Some?) &&
      Ticks(a, last).animation == None
  {
    PlanShape(shouldScale, shouldRotate, shouldTranslate, priorRotation, pi);
    if shouldScale || shouldRotate || shouldTranslate {
      PlanRunnable(t, shouldScale, shouldRotate, shouldTranslate, priorRotation, pi);
      var c := Composite(Plan(shouldScale, shouldRotate, shouldTranslate, priorRotation, pi), 0);
      forall k | 0 <= k < Remaining(c)
        ensures Ticks(Animated(t, Some(c)), k).animation.Some?
      {
        RemainingAlive(t, c, k);
      }
      RemainingCleared(t, c);
    }
  }

  function Enabled(k: Kind, shouldScale: bool, shouldRotate: bool, shouldTranslate: bool): bool {
    match k
    case Scaling => shouldScale
    case Rotation => shouldRotate
    case Translation => shouldTranslate
  }

  /** The animator `startAnimation` creates for each field. */
  function Animator(k: Kind, priorRotation: real, pi: real): Step {
    match k
    case Scaling => Scaler()
    case Rotation => Rotator(priorRotation, pi)
    case Translation => Translator()
  }

  /** Where that animator sits in the list, when it is enabled. */
  function Position(k: Kind, shouldScale: bool, shouldRotate: bool): nat {
    match k
    case Scaling => 0
    case Rotation => Count(shouldScale)
    case Translation => Count(shouldScale) + Count(shouldRotate)
  }

  /** Where each field's animator sits in the list `startAnimation`
      builds, and that a field not enabled has none. */
  lemma PlanAt(shouldScale: bool, shouldRotate: bool, shouldTranslate: bool, priorRotation: real, pi: real, k: Kind)
    ensures var p := Plan(shouldScale, shouldRotate, shouldTranslate, priorRotation, pi);
      (Enabled(k, shouldScale, shouldRotate, shouldTranslate) ==>
         Position(k, shouldScale, shouldRotate) < |p| &&
         p[Position(k, shouldScale, shouldRotate)] == Animator(k, priorRotation, pi)) &&
      (!Enabled(k, shouldScale, shouldRotate, shouldTranslate) ==>
         forall i :: 0 <= i < |p| ==> KindOf(p[i]) != k)
  {
    PlanShape(shouldScale, shouldRotate, shouldTranslate, priorRotation, pi);
  }

  /** When the animation is cleared, an enabled field holds what sixteen
      calls of its animator make of its identity value, and a field that
      was not enabled still holds its identity value. */
  lemma FinalField(t: TransformState, shouldScale: bool, shouldRotate: bool, shouldTranslate: bool, priorRotation: real, pi: real, k: Kind)
    requires t == Identity()
    requires shouldRotate ==> priorRotation + pi / 12.0 > 0.0
    ensures var fin := Finish(t, shouldScale, shouldRotate, shouldTranslate, priorRotation, pi).transform;
      (Enabled(k, shouldScale, shouldRotate, shouldTranslate) ==>
         SameField(fin, AdvanceN(t, Animator(k, priorRotation, pi), CallsToFinish()), k)) &&
      (!Enabled(k, shouldScale, shouldRotate, shouldTranslate) ==> SameField(fin, t, k))
  {
    if shouldScale || shouldRotate || shouldTranslate {
      FinalFieldRunning(t, shouldScale, shouldRotate, shouldTranslate, priorRotation, pi, k);
    } else {
      PlanShape(shouldScale, shouldRotate, shouldTranslate, priorRotation, pi);
      EmptyPlanFinish(t, priorRotation, pi);
    }
  }

  /** The same, for a plan with at least one animator. */
  lemma FinalFieldRunning(t: TransformState, shouldScale: bool, shouldRotate: bool, shouldTranslate: bool, priorRotation: real, pi: real, k: Kind)
    requires t == Identity()
    requires shouldScale || shouldRotate || shouldTranslate
    requires shouldRotate ==> priorRotation + pi / 12.0 > 0.0
    ensures var fin := Finish(t, shouldScale, shouldRotate, shouldTranslate, priorRotation, pi).transform;
      (Enabled(k, shouldScale, shouldRotate, shouldTranslate) ==>
         SameField(fin, AdvanceN(t, Animator(k, priorRotation, pi), CallsToFinish()), k)) &&
      (!Enabled(k, shouldScale, shouldRotate, shouldTranslate) ==> SameField(fin, t, k))
  {
    var p := Plan(shouldScale, shouldRotate, shouldTranslate, priorRotation, pi);
    PlanShape(shouldScale, shouldRotate, shouldTranslate, priorRotation, pi);
    PlanRunnable(t, shouldScale, shouldRotate, shouldTranslate, priorRotation, pi);
    PlanAt(shouldScale, shouldRotate, shouldTranslate, priorRotation, pi, k);
    var c := Composite(p, 0);
    assert Finish(t, shouldScale, shouldRotate, shouldTranslate, priorRotation, pi)
           == Ticks(Animated(t, Some(c)), Remaining(c));
    FieldAtEnd(t, c, k, Enabled(k, shouldScale, shouldRotate, shouldTranslate), Position(k, shouldScale, shouldRotate));
  }

  /** When the animation is cleared, the scale has been moved sixteen
      increments, one past its target, if scaling was enabled, and is still
      the identity scale otherwise. */
  lemma FinalScale(t: TransformState, shouldScale: bool, shouldRotate: bool, shouldTranslate: bool, priorRotation: real, pi: real)
    requires t == Identity()
    requires shouldRotate ==> priorRotation + pi / 12.0 > 0.0
    ensures Finish(t, shouldScale, shouldRotate, shouldTranslate, priorRotation, pi).transform.scale
            == if shouldScale then Size(1.5 + 0.5 / 15.0, 0.75 - 0.25 / 15.0) else Size(1.0, 1.0)
  {
    FinalField(t, shouldScale, shouldRotate, shouldTranslate, priorRotation, pi, Scaling);
    if shouldScale {
      ScalerMoved(t);
    }
  }

  /** Sixteen calls of the default scale animator from the identity scale. */
  lemma ScalerMoved(t: TransformState)
    requires t == Identity()
    ensures AdvanceN(t, Scaler(), CallsToFinish()).scale == Size(1.5 + 0.5 / 15.0, 0.75 - 0.25 / 15.0)
  {
    AdvanceNOwn(t, Scaler(), CallsToFinish());
  }

  /** When the animation is cleared, the rotation is sixteen fifteenths of
      its target if rotating was enabled, and still zero otherwise. */
  lemma FinalRotation(t: TransformState, shouldScale: bool, shouldRotate: bool, shouldTranslate: bool, priorRotation: real, pi: real)
    requires t == Identity()
    requires shouldRotate ==> priorRotation + pi / 12.0 > 0.0
    ensures Finish(t, shouldScale, shouldRotate, shouldTranslate, priorRotation, pi).transform.rotation
            == if shouldRotate then 16.0 * ((priorRotation + pi / 12.0) / 15.0) else 0.0
  {
    FinalField(t, shouldScale, shouldRotate, shouldTranslate, priorRotation, pi, Rotation);
    AdvanceNOwn(t, Rotator(priorRotation, pi), CallsToFinish());
  }

  /** When the animation is cleared, the translation has been moved sixteen
      increments, one past its target, if translating was enabled, and is
      still the origin otherwise. */
  lemma FinalTranslation(t: TransformState, shouldScale: bool, shouldRotate: bool, shouldTranslate: bool, priorRotation: real, pi: real)
    requires t == Identity()
    requires shouldRotate ==> priorRotation + pi / 12.0 > 0.0
    ensures Finish(t, shouldScale, shouldRotate, shouldTranslate, priorRotation, pi).transform.translation
            == if shouldTranslate then Point(200.0 + 200.0 / 15.0, 100.0 + 100.0 / 15.0) else Point(0.0, 0.0)
  {
    FinalField(t, shouldScale, shouldRotate, shouldTranslate, priorRotation, pi, Translation);
    var fin := Finish(t, shouldScale, shouldRotate, shouldTranslate, priorRotation, pi).transform;
    if shouldTranslate {
      TranslatorMoved(t);
      TranslationFrom(fin, AdvanceN(t, Translator(), CallsToFinish()));
    } else {
      TranslationFrom(fin, t);
    }
  }

  /** Sixteen calls of the default translation animator from the origin. */
  lemma TranslatorMoved(t: TransformState)
    requires t.translation == Point(0.0, 0.0)
    ensures AdvanceN(t, Translator(), CallsToFinish()).translation == Point(200.0 + 200.0 / 15.0, 100.0 + 100.0 / 15.0)
  {
    AdvanceNOwn(t, Translator(), CallsToFinish());
  }

  /** Two states that agree on the translation field have the same
      translation. */
  lemma TranslationFrom(fin: TransformState, u: TransformState)
    requires SameField(fin, u, Translation)
    ensures fin.translation == u.translation
  {
  }

  /** The final value of one field: moved by the step at position `j` when
      the field is driven (`driven`), untouched otherwise. */
  lemma FieldAtEnd(t: TransformState, c: Composite, k: Kind, driven: bool, j: nat)
    requires Runnable(t, c) && c.index == 0
    requires driven ==> j < |c.steps| && KindOf(c.steps[j]) == k
    requires !driven ==> forall i :: 0 <= i < |c.steps| ==> KindOf(c.steps[i]) != k
    ensures driven ==> SameField(Ticks(Animated(t, Some(c)), Remaining(c)).transform, AdvanceN(t, c.steps[j], CallsToFinish()), k)
    ensures !driven ==> SameField(Ticks(Animated(t, Some(c)), Remaining(c)).transform, t, k)
  {
    if driven {
      RemainingFinal(t, c, j);
    } else {
      RemainingUntouched(t, c, k);
    }
  }
}
