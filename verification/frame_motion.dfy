/**
 * The frame controller as a state machine on values.
 *
 * FramePositionController keeps a flag saying which of two captured poses is
 * the frame's "home", and moves the frame there with a coroutine that eases
 * its position and rotation over `resetDuration` seconds. Here the coroutine
 * is the value it holds while suspended at its `yield return null` (a
 * `Transition`), the engine's per-frame resumption is `Tick`, and the two
 * triggers are `ResetPosition` and `ActivateFloat`. The class in
 * FrameController is proved to follow these functions step by step.
 */
module FrameMotion {
  import opened Wrappers

  /** Unity's Vector3; its float components are taken as reals. */
  datatype Vector3 = Vector3(x: real, y: real, z: real)

  /** Unity's Quaternion; its float components are taken as reals. */
  datatype Quaternion = Quaternion(x: real, y: real, z: real, w: real)

  /** A position together with a rotation: what a Transform places in the scene. */
  datatype Pose = Pose(position: Vector3, rotation: Quaternion)

  /** A frame time or an accumulated time. `Time.deltaTime` is never negative. */
  type Seconds = r: real | 0.0 <= r

  /**
   * What the movement depends on but the controller does not define: the
   * inspector settings `resetDuration` and `smoothCurve` (AnimationCurve.Evaluate),
   * and the engine's `Vector3.Lerp` and `Quaternion.Slerp`.
   */
  datatype Motion = Motion(
    resetDuration: real,
    smoothCurve: real -> real,
    lerp: (Vector3, Vector3, real) -> Vector3,
    slerp: (Quaternion, Quaternion, real) -> Quaternion)

  /** The poses captured by `Start`: `_initialPosition`/`_initialRotation` and `_floatPosition`/`_floatRotation`. */
  datatype CapturedPoses = CapturedPoses(initialPose: Pose, floatPose: Pose)

  /** The locals of a SmoothMoveToCoroutine suspended at its `yield return null`. */
  datatype Transition = Transition(startPose: Pose, targetPose: Pose, elapsedTime: Seconds)

  /**
   * What the controller's behaviour depends on: the `isFloating` flag, the
   * coroutine that is scheduled (at most one), and the frame's current pose.
   */
  datatype FrameState = FrameState(isFloating: bool, transition: Option<Transition>, pose: Pose)

  /** The pose that matches a value of `isFloating`. */
  function Home(c: CapturedPoses, floating: bool): Pose {
    if floating then c.floatPose else c.initialPose
  }

  /**
   * The state is heading for `target`: the scheduled coroutine moves to it,
   * or no coroutine is scheduled and the frame is already exactly there.
   */
  predicate Aims(s: FrameState, target: Pose) {
    match s.transition
    case Some(t) => t.targetPose == target
    case None => s.pose == target
  }

  /** Every scheduled coroutine moves to one of the captured poses. */
  predicate TargetsCaptured(c: CapturedPoses, s: FrameState) {
    s.transition.Some? ==>
      s.transition.value.targetPose == c.initialPose || s.transition.value.targetPose == c.floatPose
  }

  /** The pose written for eased progress `smoothT`: Lerp on the position, Slerp on the rotation. */
  function Interpolate(m: Motion, start: Pose, target: Pose, smoothT: real): Pose {
    Pose(m.lerp(start.position, target.position, smoothT), m.slerp(start.rotation, target.rotation, smoothT))
  }

  /**
   * One run of the coroutine from its loop guard to the next `yield` or to its
   * end: the pose it writes to the frame and the coroutine left suspended, if any.
   */
  function Resume(m: Motion, t: Transition, deltaTime: Seconds): (r: (Pose, Option<Transition>))
    ensures r.1.Some? <==> t.elapsedTime < m.resetDuration
    ensures r.1.None? ==> r.0 == t.targetPose
    ensures r.1.Some? ==>
      && r.1.value.startPose == t.startPose
      && r.1.value.targetPose == t.targetPose
      && r.1.value.elapsedTime == t.elapsedTime + deltaTime
      && 0.0 < m.resetDuration
      && r.0 == Interpolate(m, t.startPose, t.targetPose, m.smoothCurve(r.1.value.elapsedTime / m.resetDuration))
  {
    if t.elapsedTime < m.resetDuration then
      var elapsedTime := t.elapsedTime + deltaTime;
      var smoothT := m.smoothCurve(elapsedTime / m.resetDuration);
      (Interpolate(m, t.startPose, t.targetPose, smoothT), Some(t.(elapsedTime := elapsedTime)))
    else
      (t.targetPose, None)
  }

  /** One engine frame: the scheduled coroutine, if there is one, is resumed. */
  function Tick(m: Motion, s: FrameState, deltaTime: Seconds): (r: FrameState)
    ensures r.isFloating == s.isFloating
    ensures s.transition.None? ==> r == s
    ensures s.transition.Some? ==> r.transition.None? || r.transition.value.targetPose == s.transition.value.targetPose
  {
    match s.transition
    case None => s
    case Some(t) =>
      var (pose, next) := Resume(m, t, deltaTime);
      FrameState(s.isFloating, next, pose)
  }

  /**
   * `StopAllCoroutines` then `StartCoroutine(SmoothMoveToCoroutine(target))`:
   * the scheduled coroutine is dropped, and the new one starts from the frame's
   * current pose and runs at once up to its first `yield`, in the frame in
   * which it was started.
   */
  function StartMove(m: Motion, s: FrameState, target: Pose, deltaTime: Seconds): (r: FrameState)
    ensures r.isFloating == s.isFloating
    ensures Aims(r, target)
    ensures r.transition.Some? <==> 0.0 < m.resetDuration
    ensures r.transition.Some? ==> r.transition.value.startPose == s.pose && r.transition.value.elapsedTime == deltaTime
  {
    var (pose, next) := Resume(m, Transition(s.pose, target, 0.0), deltaTime);
    FrameState(s.isFloating, next, pose)
  }

  /** The handler of the frame's "unselect" event: move back to the pose the flag names. */
  function ResetPosition(m: Motion, c: CapturedPoses, s: FrameState, deltaTime: Seconds): (r: FrameState)
    ensures r.isFloating == s.isFloating
    ensures Aims(r, if s.isFloating then c.floatPose else c.initialPose)
    ensures r.transition.Some? ==> r.transition.value.startPose == s.pose
    ensures TargetsCaptured(c, r)
  {
    if s.isFloating then StartMove(m, s, c.floatPose, deltaTime)
    else StartMove(m, s, c.initialPose, deltaTime)
  }

  /** The toggle: move to the other pose and flip the flag. */
  function ActivateFloat(m: Motion, c: CapturedPoses, s: FrameState, deltaTime: Seconds): (r: FrameState)
    ensures r.isFloating == !s.isFloating
    ensures Aims(r, if s.isFloating then c.initialPose else c.floatPose)
    ensures r.transition.Some? ==> r.transition.value.startPose == s.pose
    ensures TargetsCaptured(c, r)
  {
    if s.isFloating then StartMove(m, s, c.initialPose, deltaTime).(isFloating := false)
    else StartMove(m, s, c.floatPose, deltaTime).(isFloating := true)
  }

  /** A trigger starts the same movement whatever coroutine was scheduled before it. */
  lemma TriggersCancel(m: Motion, c: CapturedPoses, s: FrameState, other: Option<Transition>, deltaTime: Seconds)
    ensures ResetPosition(m, c, s, deltaTime) == ResetPosition(m, c, s.(transition := other), deltaTime)
    ensures ActivateFloat(m, c, s, deltaTime) == ActivateFloat(m, c, s.(transition := other), deltaTime)
  {
  }

  /** After either trigger the frame heads for the pose that matches the flag it leaves behind. */
  lemma TriggersAimAtHome(m: Motion, c: CapturedPoses, s: FrameState, deltaTime: Seconds)
    ensures var r := ResetPosition(m, c, s, deltaTime); Aims(r, Home(c, r.isFloating))
    ensures var r := ActivateFloat(m, c, s, deltaTime); Aims(r, Home(c, r.isFloating))
  {
  }

  /**
   * Two calls of ActivateFloat in a row leave the flag as it was and head back
   * for the pose it names, starting from wherever the first movement had taken
   * the frame after one frame, not from a captured pose.
   */
  lemma DoubleToggle(m: Motion, c: CapturedPoses, s: FrameState, first: Seconds, second: Seconds)
    requires 0.0 < m.resetDuration
    ensures var r1 := ActivateFloat(m, c, s, first);
      var r2 := ActivateFloat(m, c, r1, second);
      && r2.isFloating == s.isFloating
      && r1.pose == Interpolate(m, s.pose, Home(c, !s.isFloating), m.smoothCurve(first / m.resetDuration))
      && r2.transition.Some?
      && r2.transition.value.startPose == r1.pose
      && r2.transition.value.targetPose == Home(c, s.isFloating)
  {
  }

  // ---------------------------------------------------------------------------
  // Frames without triggers: the coroutine running to its end.

  /**
   * The guard is tested before the frame time is added, so the frame that
   * crosses `resetDuration` still interpolates: it evaluates the curve beyond 1
   * and leaves the coroutine suspended with more than `resetDuration` elapsed.
   * Only the next frame snaps to the target.
   */
  lemma LastStepPassesDuration(m: Motion, t: Transition, deltaTime: Seconds, next: Seconds)
    requires t.elapsedTime < m.resetDuration < t.elapsedTime + deltaTime
    ensures var r := Resume(m, t, deltaTime);
      && r.1.Some?
      && m.resetDuration < r.1.value.elapsedTime
      && 1.0 < r.1.value.elapsedTime / m.resetDuration
      && Resume(m, r.1.value, next) == (t.targetPose, None)
  {
    QuotientAboveOne(t.elapsedTime + deltaTime, m.resetDuration);
  }

  lemma QuotientAboveOne(e: real, d: real)
    requires 0.0 < d < e
    ensures 1.0 < e / d
  {
    var q := e / d;
    assert q * d == e;
    assert (q - 1.0) * d == e - d;
  }

  /** The state after one engine frame per element of `deltas`, with no trigger in between. */
  function Run(m: Motion, s: FrameState, deltas: seq<Seconds>): FrameState
    decreases |deltas|
  {
    if deltas == [] then s else Run(m, Tick(m, s, deltas[0]), deltas[1..])
  }

  /** The sum of a sequence of frame times. */
  function Sum(deltas: seq<Seconds>): Seconds
    decreases |deltas|
  {
    if deltas == [] then 0.0 else deltas[0] + Sum(deltas[1..])
  }

  /** With no coroutine scheduled, frames change nothing. */
  lemma {:induction false} RunIdle(m: Motion, s: FrameState, deltas: seq<Seconds>)
    requires s.transition.None?
    ensures Run(m, s, deltas) == s
    decreases |deltas|
  {
    if deltas != [] {
      RunIdle(m, Tick(m, s, deltas[0]), deltas[1..]);
    }
  }

  /**
   * While the coroutine is still scheduled, its start and target are those it
   * began with, its elapsed time has grown by exactly the frame times, and the
   * frame's pose is the eased interpolation for that elapsed time.
   */
  lemma {:induction false} RunAccumulates(m: Motion, s: FrameState, deltas: seq<Seconds>)
    requires s.transition.Some?
    requires Run(m, s, deltas).transition.Some?
    ensures var t, r := s.transition.value, Run(m, s, deltas).transition.value;
      && r.startPose == t.startPose
      && r.targetPose == t.targetPose
      && r.elapsedTime == t.elapsedTime + Sum(deltas)
    ensures var t, r := s.transition.value, Run(m, s, deltas);
      deltas != [] ==>
        && 0.0 < m.resetDuration
        && r.pose == Interpolate(m, t.startPose, t.targetPose, m.smoothCurve(r.transition.value.elapsedTime / m.resetDuration))
    decreases |deltas|
  {
    if deltas != [] {
      var s' := Tick(m, s, deltas[0]);
      if s'.transition.None? {
        RunIdle(m, s', deltas[1..]);
        assert false;
      }
      RunAccumulates(m, s', deltas[1..]);
    }
  }

  /**
   * A coroutine that ends without being cancelled leaves the frame exactly at
   * its target, whatever the easing curve and interpolation compute.
   */
  lemma {:induction false} RunCompletesAtTarget(m: Motion, s: FrameState, deltas: seq<Seconds>)
    requires s.transition.Some?
    requires Run(m, s, deltas).transition.None?
    ensures Run(m, s, deltas).pose == s.transition.value.targetPose
    decreases |deltas|
  {
    if deltas != [] {
      var s' := Tick(m, s, deltas[0]);
      if s'.transition.None? {
        RunIdle(m, s', deltas[1..]);
      } else {
        RunCompletesAtTarget(m, s', deltas[1..]);
      }
    }
  }

  /**
   * When every frame lasts at least `minDelta > 0`, a coroutine with `e`
   * seconds elapsed has ended after n frames once (n - 1) * minDelta reaches
   * `resetDuration - e`: the guard fails and the last frame snaps to the target.
   */
  lemma {:induction false} RunTerminates(m: Motion, s: FrameState, deltas: seq<Seconds>, minDelta: real)
    requires s.transition.Some?
    requires 0.0 < minDelta
    requires forall i :: 0 <= i < |deltas| ==> minDelta <= deltas[i]
    requires deltas != []
    requires m.resetDuration - s.transition.value.elapsedTime <= (|deltas| - 1) as real * minDelta
    ensures Run(m, s, deltas).transition.None?
    ensures Run(m, s, deltas).pose == s.transition.value.targetPose
    decreases |deltas|
  {
    var t := s.transition.value;
    var s' := Tick(m, s, deltas[0]);
    if m.resetDuration <= t.elapsedTime {
      RunIdle(m, s', deltas[1..]);
    } else {
      var n := (|deltas| - 1) as real;
      assert n * minDelta == (n - 1.0) * minDelta + minDelta;
      assert |deltas| != 1;
      assert forall i :: 0 <= i < |deltas[1..]| ==> minDelta <= deltas[1..][i] by {
        forall i | 0 <= i < |deltas[1..]| ensures minDelta <= deltas[1..][i] {
          assert deltas[1..][i] == deltas[i + 1];
        }
      }
      assert (|deltas[1..]| - 1) as real == n - 1.0;
      RunTerminates(m, s', deltas[1..], minDelta);
    }
  }

  // ---------------------------------------------------------------------------
  // Any interleaving of triggers and frames.

  /**
   * What can happen to the controller: a frame passes, something outside the
   * controller (the user's hand) moves the frame, the frame is unselected, or
   * ActivateFloat is called.
   */
  datatype Event =
    | NextFrame(deltaTime: Seconds)
    | Moved(pose: Pose)
    | Unselect(deltaTime: Seconds)
    | ActivateFloatCalled(deltaTime: Seconds)

  function Apply(m: Motion, c: CapturedPoses, s: FrameState, e: Event): FrameState {
    match e
    case NextFrame(dt) => Tick(m, s, dt)
    case Moved(pose) => s.(pose := pose)
    case Unselect(dt) => ResetPosition(m, c, s, dt)
    case ActivateFloatCalled(dt) => ActivateFloat(m, c, s, dt)
  }

  function Replay(m: Motion, c: CapturedPoses, s: FrameState, events: seq<Event>): FrameState
    decreases |events|
  {
    if events == [] then s else Replay(m, c, Apply(m, c, s, events[0]), events[1..])
  }

  /** How many of the events are calls of ActivateFloat. */
  function ActivateCount(events: seq<Event>): nat
    decreases |events|
  {
    if events == [] then 0
    else (if events[0].ActivateFloatCalled? then 1 else 0) + ActivateCount(events[1..])
  }

  /**
   * Only ActivateFloat changes the flag, and each call flips it: after any
   * events the flag is its first value exclusive-or "an odd number of calls".
   */
  lemma {:induction false} FlagParity(m: Motion, c: CapturedPoses, s: FrameState, events: seq<Event>)
    ensures Replay(m, c, s, events).isFloating == (s.isFloating != (ActivateCount(events) % 2 == 1))
    decreases |events|
  {
    if events != [] {
      FlagParity(m, c, Apply(m, c, s, events[0]), events[1..]);
    }
  }

  /** Whatever happens, the one scheduled coroutine, if any, moves to a captured pose. */
  lemma {:induction false} ReplayKeepsTargetsCaptured(m: Motion, c: CapturedPoses, s: FrameState, events: seq<Event>)
    requires TargetsCaptured(c, s)
    ensures TargetsCaptured(c, Replay(m, c, s, events))
    decreases |events|
  {
    if events != [] {
      ReplayKeepsTargetsCaptured(m, c, Apply(m, c, s, events[0]), events[1..]);
    }
  }
}
