/**
 * FramePositionController as the object the engine drives: it captures two
 * poses once, keeps the `isFloating` flag, schedules at most one movement
 * coroutine and writes the frame's Transform. Each method is proved to change
 * the state exactly as the matching function of FrameMotion says.
 */
module FrameController {
  import opened Wrappers
  import opened FrameMotion

  /** A Unity Transform, reduced to the pose it holds. Anyone may move it, e.g. the user's hand. */
  class Transform {
    var position: Vector3
    var rotation: Quaternion

    constructor (position: Vector3, rotation: Quaternion)
      ensures this.position == position && this.rotation == rotation
    {
      this.position := position;
      this.rotation := rotation;
    }

    function CurrentPose(): Pose
      reads this
    {
      Pose(position, rotation)
    }
  }

  class FramePositionController {
    /** `_initialPosition` and `_initialRotation`. */
    var initialPose: Pose
    /** `_floatPosition` and `_floatRotation`. */
    var floatPose: Pose
    var isFloating: bool
    /** The SmoothMoveToCoroutine the engine will resume next frame, if any. */
    var transition: Option<Transition>

    const frameTransform: Transform
    const floatTransform: Transform
    /** The inspector settings and the engine's interpolation. */
    const motion: Motion

    ghost predicate Valid()
      reads this
    {
      transition.Some? ==> transition.value.targetPose == initialPose || transition.value.targetPose == floatPose
    }

    function Captured(): CapturedPoses
      reads this
    {
      CapturedPoses(initialPose, floatPose)
    }

    function State(): FrameState
      reads this, frameTransform
    {
      FrameState(isFloating, transition, frameTransform.CurrentPose())
    }

    /**
     * The component as the engine hands it to `Start`: the flag is false and
     * nothing is scheduled. `Start` saves the frame's pose as the initial pose
     * and the float Transform's pose as the float pose; no later method assigns
     * either again.
     */
    constructor Start(frameTransform: Transform, floatTransform: Transform, motion: Motion)
      ensures Valid()
      ensures this.frameTransform == frameTransform && this.floatTransform == floatTransform && this.motion == motion
      ensures initialPose == frameTransform.CurrentPose()
      ensures floatPose == floatTransform.CurrentPose()
      ensures !isFloating && transition == None
    {
      this.frameTransform := frameTransform;
      this.floatTransform := floatTransform;
      this.motion := motion;
      isFloating := false;
      transition := None;
      new;
      initialPose := Pose(frameTransform.position, frameTransform.rotation);
      floatPose := Pose(floatTransform.position, floatTransform.rotation);
    }

    /**
     * The body of SmoothMoveToCoroutine's loop from its guard to the next
     * `yield return null`, or its final snap when the guard fails.
     */
    method ResumeCoroutine(t: Transition, deltaTime: Seconds)
      modifies this`transition, frameTransform
      ensures (frameTransform.CurrentPose(), transition) == Resume(motion, t, deltaTime)
    {
      if t.elapsedTime < motion.resetDuration {
        var elapsedTime := t.elapsedTime + deltaTime;
        var smoothT := motion.smoothCurve(elapsedTime / motion.resetDuration);
        frameTransform.position := motion.lerp(t.startPose.position, t.targetPose.position, smoothT);
        frameTransform.rotation := motion.slerp(t.startPose.rotation, t.targetPose.rotation, smoothT);
        transition := Some(t.(elapsedTime := elapsedTime));
      } else {
        frameTransform.position := t.targetPose.position;
        frameTransform.rotation := t.targetPose.rotation;
        transition := None;
      }
    }

    /** `StopAllCoroutines(); StartCoroutine(SmoothMoveToCoroutine(target))` in a frame lasting `deltaTime`. */
    method MoveTo(target: Pose, deltaTime: Seconds)
      modifies this`transition, frameTransform
      ensures (frameTransform.CurrentPose(), transition) == Resume(motion, Transition(old(frameTransform.CurrentPose()), target, 0.0), deltaTime)
    {
      transition := None;
      var startPose := Pose(frameTransform.position, frameTransform.rotation);
      ResumeCoroutine(Transition(startPose, target, 0.0), deltaTime);
    }

    /** The "unselect" handler, called in a frame lasting `deltaTime`. */
    method ResetPosition(deltaTime: Seconds)
      requires Valid()
      modifies this, frameTransform
      ensures Valid()
      ensures Captured() == old(Captured())
      ensures State() == FrameMotion.ResetPosition(motion, Captured(), old(State()), deltaTime)
    {
      if isFloating {
        MoveTo(floatPose, deltaTime);
      } else {
        MoveTo(initialPose, deltaTime);
      }
    }

    /** The toggle, called in a frame lasting `deltaTime`. */
    method ActivateFloat(deltaTime: Seconds)
      requires Valid()
      modifies this, frameTransform
      ensures Valid()
      ensures Captured() == old(Captured())
      ensures State() == FrameMotion.ActivateFloat(motion, Captured(), old(State()), deltaTime)
    {
      if isFloating {
        MoveTo(initialPose, deltaTime);
        isFloating := false;
      } else {
        MoveTo(floatPose, deltaTime);
        isFloating := true;
      }
    }

    /** The engine resuming the scheduled coroutine, if any, in a frame lasting `deltaTime`. */
    method Tick(deltaTime: Seconds)
      requires Valid()
      modifies this, frameTransform
      ensures Valid()
      ensures Captured() == old(Captured())
      ensures State() == FrameMotion.Tick(motion, old(State()), deltaTime)
    {
      if transition.Some? {
        ResumeCoroutine(transition.value, deltaTime);
      }
    }
  }
}
