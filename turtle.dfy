/**
 * The turtlesim motion controller of server/simulated-turtle.js: the angle
 * wrap of thetaError, the PID steps of goToTheta and goInLine, and the
 * waypoint sequencing of goToCoordinates and drawPath. Every setTimeout
 * re-invocation of a controller is one explicit step of a SimulatedTurtle
 * object, and every published velocity command is appended to its log.
 */
module Turtle {
  import opened Options
  import opened JsMath

  datatype Point = Point(x: real, y: real)

  /** The two fields of a geometry_msgs/Twist the turtle sets: linear.x and angular.z. */
  datatype Twist = Twist(linear: real, angular: real)

  /** A turtlesim/Pose sample. */
  datatype Pose = Pose(x: real, y: real, theta: real, angularVelocity: real, linearVelocity: real)

  // ----- thetaError (static in the class) -----

  /**
   * e is what thetaError returns for the raw difference d = desired - current:
   * an angle in [-PI, PI] a whole number of turns away from d; PI only when d
   * was reduced from above and -PI only when d was raised from below.
   */
  ghost predicate IsThetaError(d: real, e: real) {
    && -PI <= e <= PI
    && SameAngle(e, d)
    && (e == PI ==> d >= PI)
    && (e == -PI ==> d <= -PI)
  }

  method ThetaError(desired: real, current: real) returns (e: real)
    ensures Abs(desired - current) < PI ==> e == desired - current
    ensures IsThetaError(desired - current, e)
  {
    var errorAmount := desired - current;
    if Abs(errorAmount) < PI {
      assert errorAmount == (desired - current) + FullTurns(0);
      return errorAmount;
    }
    ghost var k: int := 0;
    while errorAmount > PI
      invariant errorAmount == (desired - current) + FullTurns(k)
      invariant desired - current >= PI ==> errorAmount > -PI
      invariant desired - current <= -PI ==> errorAmount == desired - current
      decreases errorAmount.Floor
    {
      errorAmount := errorAmount - PI * 2.0;
      k := k - 1;
    }
    while errorAmount < -PI
      invariant errorAmount == (desired - current) + FullTurns(k)
      invariant errorAmount <= PI
      invariant desired - current >= PI ==> errorAmount > -PI
      invariant desired - current <= -PI ==> errorAmount < PI
      decreases (-errorAmount).Floor
    {
      errorAmount := errorAmount + PI * 2.0;
      k := k + 1;
    }
    e := errorAmount;
  }

  /** The contract of ThetaError determines its result. */
  lemma ThetaErrorUnique(d: real, e1: real, e2: real)
    requires IsThetaError(d, e1) && IsThetaError(d, e2)
    ensures e1 == e2
  {
    var k1: int :| e1 == d + FullTurns(k1);
    var k2: int :| e2 == d + FullTurns(k2);
    var j := k1 - k2;
    assert e1 - e2 == FullTurns(j);
    // PI and -PI both occur only if d >= PI and d <= -PI at once
    assert -2.0 * PI < e1 - e2 < 2.0 * PI;
    WithinOneTurn(j);
  }

  /** Less than one whole turn either way is no turn at all. */
  lemma WithinOneTurn(j: int)
    requires -2.0 * PI < FullTurns(j) < 2.0 * PI
    ensures j == 0
  {
    ScaleByPi(j as real);
  }

  /** Scaling PI by a factor of size at least one. */
  lemma ScaleByPi(r: real)
    ensures r >= 1.0 ==> r * PI >= PI
    ensures r <= -1.0 ==> r * PI <= -PI
  {
    assert (r - 1.0) * PI == r * PI - PI;
    assert (r + 1.0) * PI == r * PI + PI;
  }

  /** The four cases of test/simulated-turtle.js. */
  method ThetaErrorExamples() returns (a: real, b: real, c: real, d: real)
    ensures a == 0.5 && b == -0.4 && c == 0.4 && d == -0.4
  {
    a := ThetaError(0.5, 0.0);
    b := ThetaError(-0.2, 0.2);
    c := ThetaError(-PI + 0.2, PI - 0.2);
    assert 0.4 == ((-PI + 0.2) - (PI - 0.2)) + FullTurns(1);
    ThetaErrorUnique((-PI + 0.2) - (PI - 0.2), c, 0.4);
    d := ThetaError(PI - 0.2, -PI + 0.2);
    assert -0.4 == ((PI - 0.2) - (-PI + 0.2)) + FullTurns(-1);
    ThetaErrorUnique((PI - 0.2) - (-PI + 0.2), d, -0.4);
  }

  /**
   * As written, goToTheta and goInLine call `this.thetaError`, but thetaError is
   * declared static, so the instance lookup finds nothing. These are the
   * methods SimulatedTurtle.prototype itself defines. An instance also finds
   * the methods it inherits from EventEmitter, such as `emit` (:74); none of
   * them is named thetaError, and they are not listed here.
   */
  const PrototypeMethods: set<string> := {
    "setCurrentPose", "setVelocity", "goToTheta", "thetaForGoalPosition", "goInLine",
    "goToCoordinates", "drawPath", "setPen", "teleportAbsolute", "teleportRelative"
  }
  const StaticMethods: set<string> := {"thetaError"}

  datatype CallResult = Returns | ThrowsTypeError

  /** Calling `this.<name>(...)` on a SimulatedTurtle instance, for a name SimulatedTurtle declares. */
  function CallOnInstance(name: string): CallResult {
    if name in PrototypeMethods then Returns else ThrowsTypeError
  }

  /** The call at server/simulated-turtle.js:99 and :173, as written, throws. */
  lemma ThetaErrorCallOnInstanceThrows()
    ensures "thetaError" in StaticMethods
    ensures CallOnInstance("thetaError") == ThrowsTypeError
  {
  }

  // ----- the control laws -----

  /** Proportional, integral and derivative gains. */
  datatype Gains = Gains(kp: real, ki: real, kd: real)

  /** Gains and output limit of goToTheta (:104-107). */
  const HeadingGains := Gains(10.0, 0.0, 0.0)
  const MaxAngularVelocity := 3.14

  /** Gains and output limit of goInLine (:180-183). */
  const LineGains := Gains(2.0, 0.0, 0.0)
  const MaxLinearVelocity := 1.5

  /** The integral carried to the next step (:110, :186). */
  function NextIntegral(e: real, integral: real, dt: real): (r: real)
    ensures dt > 0.0 ==> (r > integral <==> e > 0.0) && (r < integral <==> e < 0.0)
  {
    integral + e * dt
  }

  /** The PID output of one step (:111-112, :187-188). */
  function PidOutput(g: Gains, e: real, previousError: real, integral: real, dt: real): (r: real)
    requires dt != 0.0
    ensures g.ki == 0.0 && g.kd == 0.0 ==> r == g.kp * e
  {
    g.kp * e + g.ki * NextIntegral(e, integral, dt) + g.kd * ((e - previousError) / dt)
  }

  /** The output limit of goToTheta (:113-119): both sides are cut at the limit. */
  function ClampSymmetric(v: real, limit: real): (r: real)
    requires limit > 0.0
    ensures -limit <= r <= limit
    ensures -limit <= v <= limit ==> r == v
    ensures v > limit ==> r == limit
    ensures v < -limit ==> r == -limit
    ensures (r > 0.0 <==> v > 0.0) && (r < 0.0 <==> v < 0.0)
  {
    if v > limit then limit else if v < -limit then -limit else v
  }

  /** The output limit of goInLine (:189-193): only the positive side is cut. */
  function ClampAbove(v: real, limit: real): (r: real)
    ensures r <= limit
    ensures v <= limit ==> r == v
    ensures v > limit ==> r == limit
  {
    if v > limit then limit else v
  }

  /** The command a goToTheta step publishes when the error is not within tolerance. */
  function HeadingCommand(e: real, previousError: real, integral: real, dt: real): (r: Twist)
    requires dt > 0.0
    ensures r.linear == 0.0 && -MaxAngularVelocity <= r.angular <= MaxAngularVelocity
  {
    Twist(0.0, ClampSymmetric(PidOutput(HeadingGains, e, previousError, integral, dt), MaxAngularVelocity))
  }

  /** The goal lies behind the turtle (:176). */
  predicate Overshot(headingError: real) {
    Abs(headingError) > PI / 2.0
  }

  /** The error the PID law of goInLine sees: the distance, negated when the goal lies behind (:178). */
  function SignedDistance(distance: real, headingError: real): real {
    if Overshot(headingError) then -distance else distance
  }

  /** The angular command of goInLine: the heading error itself, or 0 when the goal lies behind (:177). */
  function Steering(headingError: real): real {
    if Overshot(headingError) then 0.0 else headingError
  }

  /** The command a goInLine step publishes when the distance is not within tolerance. */
  function LineCommand(distance: real, headingError: real, previousError: real, integral: real, dt: real): (r: Twist)
    requires dt > 0.0
    ensures r.linear <= MaxLinearVelocity
    ensures r.angular == (if Overshot(headingError) then 0.0 else headingError)
  {
    var e := SignedDistance(distance, headingError);
    Twist(ClampAbove(PidOutput(LineGains, e, previousError, integral, dt), MaxLinearVelocity), Steering(headingError))
  }

  /** With kp = 10 and no integral or derivative gain, goToTheta turns at clamp(10 e), in the direction of e. */
  lemma HeadingCommandLaw(e: real, previousError: real, integral: real, dt: real)
    requires dt > 0.0
    ensures HeadingCommand(e, previousError, integral, dt).linear == 0.0
    ensures HeadingCommand(e, previousError, integral, dt).angular == ClampSymmetric(10.0 * e, 3.14)
    ensures -3.14 <= HeadingCommand(e, previousError, integral, dt).angular <= 3.14
    ensures HeadingCommand(e, previousError, integral, dt).angular > 0.0 <==> e > 0.0
    ensures HeadingCommand(e, previousError, integral, dt).angular < 0.0 <==> e < 0.0
  {
  }

  /** A goal behind the turtle: no turning, and a reverse command of -2 distance that no lower limit cuts. */
  lemma OvershootReverses(distance: real, headingError: real, previousError: real, integral: real, dt: real)
    requires dt > 0.0 && distance >= 0.0 && Overshot(headingError)
    ensures SignedDistance(distance, headingError) == -distance
    ensures LineCommand(distance, headingError, previousError, integral, dt) == Twist(-2.0 * distance, 0.0)
  {
  }

  /** A goal ahead of the turtle: it turns by the heading error and drives at 2 distance, at most 1.5. */
  lemma AheadDrivesForward(distance: real, headingError: real, previousError: real, integral: real, dt: real)
    requires dt > 0.0 && !Overshot(headingError)
    ensures SignedDistance(distance, headingError) == distance
    ensures LineCommand(distance, headingError, previousError, integral, dt) == Twist(ClampAbove(2.0 * distance, 1.5), headingError)
  {
  }

  /** The linear command of goInLine never exceeds 1.5, whatever it carries. */
  lemma LinearCommandBounded(distance: real, headingError: real, previousError: real, integral: real, dt: real)
    requires dt > 0.0
    ensures LineCommand(distance, headingError, previousError, integral, dt).linear <= 1.5
  {
  }

  // ----- the turtle -----

  /**
   * The drawPath state machine: which controller runs next and what it has
   * carried from its previous invocation.
   */
  datatype Phase =
    | Idle
    | Aligning(goalTheta: real, goal: Point, rest: seq<Point>, previousError: real, integral: real)
    | Approaching(goal: Point, rest: seq<Point>, previousError: real, integral: real)
  {
    /** Phase changes left before the path is done. */
    function Remaining(): nat {
      match this
      case Idle => 0
      case Aligning(_, _, rest, _, _) => 2 * |rest| + 2
      case Approaching(_, rest, _, _) => 2 * |rest| + 1
    }

    /** The phase as its controller starts it: the same goal, with nothing carried. */
    function AtStart(): Phase {
      match this
      case Idle => Idle
      case Aligning(goalTheta, goal, rest, _, _) => Aligning(goalTheta, goal, rest, 0.0, 0.0)
      case Approaching(goal, rest, _, _) => Approaching(goal, rest, 0.0, 0.0)
    }
  }

  class SimulatedTurtle {
    const name: string
    const publishInterval: real
    const thetaTolerance: real
    const distanceTolerance: real
    var xPosition: real
    var yPosition: real
    var theta: real
    var angularVelocity: real
    var linearVelocity: real
    /** The Twist messages published on /<name>/cmd_vel, oldest first. */
    var commands: seq<Twist>
    /** The controller in progress. */
    var phase: Phase
    /** Whether a setTimeout re-invocation of that controller is scheduled. */
    var timerPending: bool
    /** The waypoints given to the latest drawPath call, and those of them already reached. */
    var path: seq<Point>
    var reached: seq<Point>
    var drawPathCalls: nat
    /** How many times a drawPath callback has been invoked. */
    var completions: nat
    /** The `exists` property server/main.js:44 sets on the object; the class never reads it. */
    var existsMark: Option<bool>

    /**
     * The waypoints are followed in order: while a controller runs, the reached
     * waypoints, its goal and the remaining ones make up the path, and every
     * drawPath call but the one in progress has invoked its callback once.
     */
    ghost predicate Valid()
      reads this
    {
      && publishInterval == 10.0
      && thetaTolerance == 0.00005
      && distanceTolerance == 0.005
      && match phase
         case Idle => reached == path && completions == drawPathCalls
         case Aligning(_, goal, rest, _, _) => reached + [goal] + rest == path && completions + 1 == drawPathCalls
         case Approaching(goal, rest, _, _) => reached + [goal] + rest == path && completions + 1 == drawPathCalls
    }

    /** Between timer events: a re-invocation is scheduled exactly while a path is being followed. */
    ghost predicate Settled()
      reads this
    {
      timerPending <==> !phase.Idle?
    }

    /** The initial fields of the constructor (:18-26); its spawn request is issued by the caller's log. */
    constructor (x: real, y: real, theta: real, name: string)
      ensures Valid() && Settled()
      ensures this.name == name && xPosition == x && yPosition == y && this.theta == theta
      ensures angularVelocity == 0.0 && linearVelocity == 0.0
      ensures commands == [] && phase == Idle && path == [] && drawPathCalls == 0
      ensures existsMark == None
    {
      this.name := name;
      xPosition := x;
      yPosition := y;
      this.theta := theta;
      angularVelocity := 0.0;
      linearVelocity := 0.0;
      publishInterval := 10.0;
      thetaTolerance := 0.00005;
      distanceTolerance := 0.005;
      commands := [];
      phase := Idle;
      timerPending := false;
      path := [];
      reached := [];
      drawPathCalls := 0;
      completions := 0;
      existsMark := None;
    }

    /** setCurrentPose (:68-75) with the linear velocity taken from the sample's linear velocity. */
    method SetCurrentPose(poseData: Pose)
      modifies this`xPosition, this`yPosition, this`theta, this`angularVelocity, this`linearVelocity
      ensures xPosition == poseData.x && yPosition == poseData.y && theta == poseData.theta
      ensures angularVelocity == poseData.angularVelocity
      ensures linearVelocity == poseData.linearVelocity
    {
      xPosition := poseData.x;
      yPosition := poseData.y;
      theta := poseData.theta;
      angularVelocity := poseData.angularVelocity;
      linearVelocity := poseData.linearVelocity;
    }

    /** setCurrentPose exactly as written: :73 copies the angular velocity into linearVelocity. */
    method SetCurrentPoseAsWritten(poseData: Pose)
      modifies this`xPosition, this`yPosition, this`theta, this`angularVelocity, this`linearVelocity
      ensures xPosition == poseData.x && yPosition == poseData.y && theta == poseData.theta
      ensures angularVelocity == poseData.angularVelocity
      ensures linearVelocity == poseData.angularVelocity
    {
      xPosition := poseData.x;
      yPosition := poseData.y;
      theta := poseData.theta;
      angularVelocity := poseData.angularVelocity;
      linearVelocity := poseData.angularVelocity;
    }

    /** thetaForGoalPosition (:132-134): the bearing from the current position to the goal. */
    function ThetaForGoalPosition(goal: Point): (r: real)
      reads this`xPosition, this`yPosition
      ensures -PI <= r <= PI
    {
      Atan2(goal.y - yPosition, goal.x - xPosition)
    }

    /** The Euclidean distance goInLine computes (:167-168). */
    function DistanceTo(goal: Point): (r: real)
      reads this`xPosition, this`yPosition
      ensures r >= 0.0
    {
      Sqrt(Square(goal.x - xPosition) + Square(goal.y - yPosition))
    }

    /**
     * Every one of the points lies within the distance tolerance of the
     * current pose: goInLine marks a goal reached only there (:169-171).
     */
    ghost predicate AllWithinTolerance(points: seq<Point>)
      reads this`xPosition, this`yPosition
    {
      forall i :: 0 <= i < |points| ==> DistanceTo(points[i]) < distanceTolerance
    }

    lemma WithinToleranceAppend(a: seq<Point>, b: seq<Point>)
      ensures AllWithinTolerance(a + b) <==> AllWithinTolerance(a) && AllWithinTolerance(b)
    {
      if AllWithinTolerance(a) && AllWithinTolerance(b) {
        forall i | 0 <= i < |a + b|
          ensures DistanceTo((a + b)[i]) < distanceTolerance
        {
          if i >= |a| {
            assert (a + b)[i] == b[i - |a|];
          }
        }
      }
      if AllWithinTolerance(a + b) {
        forall i | 0 <= i < |a|
          ensures DistanceTo(a[i]) < distanceTolerance
        {
          assert (a + b)[i] == a[i];
        }
        forall i | 0 <= i < |b|
          ensures DistanceTo(b[i]) < distanceTolerance
        {
          assert (a + b)[|a| + i] == b[i];
        }
      }
    }

    /** Waypoints reached since index from stay within tolerance when more are reached, each within tolerance. */
    lemma WithinToleranceExtend(from: nat, before: seq<Point>, after: seq<Point>)
      requires from <= |before| && before <= after
      requires AllWithinTolerance(before[from..]) && AllWithinTolerance(after[|before|..])
      ensures AllWithinTolerance(after[from..])
    {
      assert after[from..] == before[from..] + after[|before|..];
      WithinToleranceAppend(before[from..], after[|before|..]);
    }

    /**
     * c is the command one invocation of the controller of phase p publishes
     * from the current pose: goToTheta on the wrapped heading error, or
     * goInLine on the distance and the wrapped bearing error, each with the
     * previousError and integral the phase carries.
     */
    ghost predicate StepCommand(p: Phase, c: Twist)
      reads this`xPosition, this`yPosition, this`theta
    {
      && publishInterval > 0.0
      && match p
         case Idle => false
         case Aligning(goalTheta, _, _, previousError, integral) =>
           AlignStep(goalTheta, previousError, integral, c)
         case Approaching(goal, _, previousError, integral) =>
           if DistanceTo(goal) < distanceTolerance then c == Twist(0.0, 0.0)
           else ApproachStep(goal, previousError, integral, c)
    }

    /** c is what goToTheta publishes on the wrapped heading error toward goalTheta (:96-113). */
    ghost predicate AlignStep(goalTheta: real, previousError: real, integral: real, c: Twist)
      requires publishInterval > 0.0
      reads this`theta
    {
      exists e :: IsThetaError(goalTheta - theta, e)
        && c == (if Abs(e) < thetaTolerance then Twist(0.0, 0.0)
                 else HeadingCommand(e, previousError, integral, publishInterval))
    }

    /** c is what goInLine publishes away from goal, on the wrapped bearing error (:172-192). */
    ghost predicate ApproachStep(goal: Point, previousError: real, integral: real, c: Twist)
      requires publishInterval > 0.0
      reads this`xPosition, this`yPosition, this`theta
    {
      exists h :: IsThetaError(ThetaForGoalPosition(goal) - theta, h)
        && c == LineCommand(DistanceTo(goal), h, previousError, integral, publishInterval)
    }

    /**
     * q carries what one invocation of its own controller computes from the
     * current pose when it schedules itself again (:120-122, :194-196), given
     * the integral it started from: the error it found outside the tolerance,
     * and that integral advanced by the error.
     */
    ghost predicate Carries(q: Phase, integral0: real)
      reads this`xPosition, this`yPosition, this`theta
    {
      match q
      case Idle => false
      case Aligning(goalTheta, _, _, e, integral) =>
        && IsThetaError(goalTheta - theta, e) && !(Abs(e) < thetaTolerance)
        && integral == NextIntegral(e, integral0, publishInterval)
      case Approaching(goal, _, e, integral) =>
        && !(DistanceTo(goal) < distanceTolerance)
        && ApproachError(goal, e)
        && integral == NextIntegral(e, integral0, publishInterval)
    }

    /** e is the signed distance goInLine computes toward goal from the current pose (:177-189). */
    ghost predicate ApproachError(goal: Point, e: real)
      reads this`xPosition, this`yPosition, this`theta
    {
      exists h :: IsThetaError(ThetaForGoalPosition(goal) - theta, h) && e == SignedDistance(DistanceTo(goal), h)
    }

    /**
     * One invocation of the controller of phase p finishes rather than
     * scheduling itself again: goToTheta finds the wrapped heading error
     * within thetaTolerance (:100-102), goInLine the goal within
     * distanceTolerance (:169-172).
     */
    ghost predicate Finishes(p: Phase)
      reads this`xPosition, this`yPosition, this`theta
    {
      match p
      case Idle => false
      case Aligning(goalTheta, _, _, _, _) =>
        exists e :: IsThetaError(goalTheta - theta, e) && Abs(e) < thetaTolerance
      case Approaching(goal, _, _, _) => DistanceTo(goal) < distanceTolerance
    }

    /**
     * An alignment phase turns toward the bearing of its goal from the current
     * position, as goToCoordinates computes it when alignment starts (:206-210).
     */
    ghost predicate FacesGoal()
      reads this`phase, this`xPosition, this`yPosition
    {
      phase.Aligning? ==> phase.goalTheta == ThetaForGoalPosition(phase.goal)
    }

    /** With the goal fixed, what an invocation carries is determined by the pose and the integral it started from. */
    lemma CarriedPhaseUnique(q1: Phase, q2: Phase, integral0: real)
      ensures q1.AtStart() == q2.AtStart() && Carries(q1, integral0) && Carries(q2, integral0) ==> q1 == q2
    {
      if q1.AtStart() == q2.AtStart() && Carries(q1, integral0) && Carries(q2, integral0) {
        if q1.Aligning? {
          ThetaErrorUnique(q1.goalTheta - theta, q1.previousError, q2.previousError);
        } else {
          var h1 :| IsThetaError(ThetaForGoalPosition(q1.goal) - theta, h1) && q1.previousError == SignedDistance(DistanceTo(q1.goal), h1);
          var h2 :| IsThetaError(ThetaForGoalPosition(q2.goal) - theta, h2) && q2.previousError == SignedDistance(DistanceTo(q2.goal), h2);
          ThetaErrorUnique(ThetaForGoalPosition(q1.goal) - theta, h1, h2);
        }
      }
    }

    /**
     * drawPath(rest) as the callbacks reach it (:217-229): an empty array
     * invokes the callback; otherwise goToCoordinates (:206-210) fixes the
     * bearing to the first waypoint and starts goToTheta with nothing carried.
     */
    method ContinuePath(rest: seq<Point>)
      requires reached + rest == path && completions + 1 == drawPathCalls
      requires publishInterval == 10.0 && thetaTolerance == 0.00005 && distanceTolerance == 0.005
      modifies this`phase, this`completions
      ensures Valid()
      ensures rest == [] ==> phase == Idle && completions == old(completions) + 1
      ensures rest != [] ==> phase == Aligning(ThetaForGoalPosition(rest[0]), rest[0], rest[1..], 0.0, 0.0)
      ensures rest != [] ==> completions == old(completions)
    {
      if |rest| == 0 {
        completions := completions + 1;
        phase := Idle;
      } else {
        assert reached + [rest[0]] + rest[1..] == path;
        phase := Aligning(ThetaForGoalPosition(rest[0]), rest[0], rest[1..], 0.0, 0.0);
      }
    }

    /**
     * One invocation of goToTheta (:98-124). Within tolerance it stops the
     * turtle and runs its callback, which starts goInLine towards the same goal
     * with nothing carried (:207-209); otherwise it publishes the clamped PID
     * command and schedules itself again with (error, integral).
     */
    method GoToTheta() returns (errorVal: real, finished: bool)
      requires Valid() && phase.Aligning?
      modifies this`commands, this`phase, this`timerPending
      ensures Valid()
      ensures IsThetaError(old(phase).goalTheta - theta, errorVal)
      ensures finished <==> Abs(errorVal) < thetaTolerance
      ensures finished ==> commands == old(commands) + [Twist(0.0, 0.0)]
      ensures finished ==> phase == Approaching(old(phase).goal, old(phase).rest, 0.0, 0.0)
      ensures !finished ==> commands == old(commands) + [HeadingCommand(errorVal, old(phase).previousError, old(phase).integral, publishInterval)]
      ensures !finished ==> phase == Aligning(old(phase).goalTheta, old(phase).goal, old(phase).rest, errorVal,
                                              NextIntegral(errorVal, old(phase).integral, publishInterval))
      ensures timerPending == !finished
    {
      var goalTheta, goal, rest := phase.goalTheta, phase.goal, phase.rest;
      var previousError, integral := phase.previousError, phase.integral;
      errorVal := ThetaError(goalTheta, theta);
      if Abs(errorVal) < thetaTolerance {
        commands := commands + [Twist(0.0, 0.0)];
        phase := Approaching(goal, rest, 0.0, 0.0);
        finished := true;
      } else {
        var kp, ki, kd := 10.0, 0.0, 0.0;
        var maxVelocity := 3.14;
        integral := integral + errorVal * publishInterval;
        var derivative := (errorVal - previousError) / publishInterval;
        var newVelocity := kp * errorVal + ki * integral + kd * derivative;
        if newVelocity > maxVelocity {
          commands := commands + [Twist(0.0, maxVelocity)];
        } else if newVelocity < -maxVelocity {
          commands := commands + [Twist(0.0, -maxVelocity)];
        } else {
          commands := commands + [Twist(0.0, newVelocity)];
        }
        phase := Aligning(goalTheta, goal, rest, errorVal, integral);
        finished := false;
      }
      timerPending := !finished;
    }

    /**
     * One invocation of goInLine (:166-198): within tolerance the goal is
     * reached, otherwise the turtle is steered towards it and the step is
     * scheduled again.
     */
    method GoInLine() returns (distance: real, headingError: real, finished: bool)
      requires Valid() && phase.Approaching?
      modifies this`commands, this`phase, this`timerPending, this`reached, this`completions
      ensures Valid()
      ensures distance == DistanceTo(old(phase).goal)
      ensures finished <==> distance < distanceTolerance
      ensures if finished then
                && commands == old(commands) + [Twist(0.0, 0.0)]
                && reached == old(reached) + [old(phase).goal]
                && (old(phase).rest == [] ==> phase == Idle && completions == old(completions) + 1)
                && (old(phase).rest != [] ==>
                      phase == Aligning(ThetaForGoalPosition(old(phase).rest[0]), old(phase).rest[0], old(phase).rest[1..], 0.0, 0.0)
                      && completions == old(completions))
              else
                && IsThetaError(ThetaForGoalPosition(old(phase).goal) - theta, headingError)
                && commands == old(commands) + [LineCommand(distance, headingError, old(phase).previousError, old(phase).integral, publishInterval)]
                && phase == Approaching(old(phase).goal, old(phase).rest, SignedDistance(distance, headingError),
                                        NextIntegral(SignedDistance(distance, headingError), old(phase).integral, publishInterval))
                && reached == old(reached) && completions == old(completions)
      ensures timerPending == !finished
      ensures old(reached) <= reached && AllWithinTolerance(reached[|old(reached)|..])
    {
      distance := DistanceTo(phase.goal);
      ghost var before := phase;
      if distance < distanceTolerance {
        ReachGoal();
        assert distance == DistanceTo(before.goal);
        headingError, finished := 0.0, true;
      } else {
        headingError := Steer(distance);
        assert distance == DistanceTo(before.goal);
        finished := false;
      }
    }

    /**
     * The tolerance branch of goInLine (:169-172): stop the turtle, then the
     * callback, drawPath of the remaining waypoints.
     */
    method ReachGoal()
      requires Valid() && phase.Approaching?
      modifies this`commands, this`phase, this`timerPending, this`reached, this`completions
      ensures Valid() && !timerPending
      ensures commands == old(commands) + [Twist(0.0, 0.0)]
      ensures reached == old(reached) + [old(phase).goal]
      ensures old(phase).rest == [] ==> phase == Idle && completions == old(completions) + 1
      ensures old(phase).rest != [] ==>
                phase == Aligning(ThetaForGoalPosition(old(phase).rest[0]), old(phase).rest[0], old(phase).rest[1..], 0.0, 0.0)
                && completions == old(completions)
    {
      var goal, rest := phase.goal, phase.rest;
      commands := commands + [Twist(0.0, 0.0)];
      reached := reached + [goal];
      ContinuePath(rest);
      timerPending := false;
    }

    /**
     * The control branch of goInLine (:173-196): the overshoot rule, the PID
     * law on the (possibly negated) distance, the positive-side limit, and the
     * re-invocation carrying that error and the integral.
     */
    method Steer(distance: real) returns (headingError: real)
      requires Valid() && phase.Approaching?
      modifies this`commands, this`phase, this`timerPending
      ensures Valid() && timerPending
      ensures IsThetaError(ThetaForGoalPosition(old(phase).goal) - theta, headingError)
      ensures commands == old(commands) + [LineCommand(distance, headingError, old(phase).previousError, old(phase).integral, publishInterval)]
      ensures phase == Approaching(old(phase).goal, old(phase).rest, SignedDistance(distance, headingError),
                                   NextIntegral(SignedDistance(distance, headingError), old(phase).integral, publishInterval))
    {
      var goal, rest := phase.goal, phase.rest;
      var previousError, integral := phase.previousError, phase.integral;
      var errorVal := distance;
      var angVelocity := ThetaError(ThetaForGoalPosition(goal), theta);
      headingError := angVelocity;
      if Abs(angVelocity) > PI / 2.0 {
        angVelocity := 0.0;
        errorVal := -errorVal;
      }
      var kp, ki, kd := 2.0, 0.0, 0.0;
      var maxVelocity := 1.5;
      integral := integral + errorVal * publishInterval;
      var derivative := (errorVal - previousError) / publishInterval;
      var newVelocity := kp * errorVal + ki * integral + kd * derivative;
      if newVelocity > maxVelocity {
        commands := commands + [Twist(maxVelocity, angVelocity)];
      } else {
        commands := commands + [Twist(newVelocity, angVelocity)];
      }
      phase := Approaching(goal, rest, errorVal, integral);
      timerPending := true;
    }

    /**
     * One invocation of the controller in progress: it publishes the command
     * StepCommand describes. When it finished its goal or its alignment, the
     * command is a stop, and the next controller is to run at once through the
     * callback unless the path is done.
     */
    method Invoke() returns (active: bool)
      requires Valid() && !phase.Idle? && !timerPending
      modifies this`commands, this`phase, this`timerPending, this`reached, this`completions
      ensures Valid()
      ensures |commands| == |old(commands)| + 1 && commands[..|old(commands)|] == old(commands)
      ensures StepCommand(old(phase), commands[|old(commands)|])
      ensures old(reached) <= reached && AllWithinTolerance(reached[|old(reached)|..])
      ensures active ==> !phase.Idle? && !timerPending
      ensures active ==> phase.Remaining() + 1 == old(phase).Remaining()
      ensures !active ==> Settled() && phase.Remaining() <= old(phase).Remaining()
      ensures active ==> phase.previousError == 0.0 && phase.integral == 0.0
      ensures timerPending ==> phase.AtStart() == old(phase).AtStart() && Carries(phase, old(phase).integral)
      ensures active ==> FacesGoal()
      ensures timerPending <==> !Finishes(old(phase))
      ensures active <==> Finishes(old(phase)) && old(phase).Remaining() > 1
    {
      if phase.Aligning? {
        ghost var d := phase.goalTheta - theta;
        var errorVal, finished := GoToTheta();
        forall e | IsThetaError(d, e)
          ensures e == errorVal
        {
          ThetaErrorUnique(d, e, errorVal);
        }
        active := finished;
      } else {
        var distance, headingError, finished := GoInLine();
        active := finished && !phase.Idle?;
      }
    }

    /**
     * Runs the controller invocations that follow one another synchronously
     * through completion callbacks, until one of them schedules itself again
     * or the path is done.
     */
    method Run()
      requires Valid() && !timerPending
      modifies this`commands, this`phase, this`timerPending, this`reached, this`completions
      ensures Valid() && Settled()
      ensures old(commands) <= commands && old(reached) <= reached
      ensures old(phase).Idle? ==> commands == old(commands) && phase == old(phase)
      ensures !old(phase).Idle? ==> |commands| > |old(commands)| && StepCommand(old(phase), commands[|old(commands)|])
      ensures phase.Remaining() <= old(phase).Remaining()
      ensures AllWithinTolerance(reached[|old(reached)|..])
      ensures !old(phase).Idle? && timerPending ==>
                || (phase.AtStart() == old(phase).AtStart() && Carries(phase, old(phase).integral))
                || (phase.Remaining() < old(phase).Remaining() && Carries(phase, 0.0))
      ensures phase.Remaining() < old(phase).Remaining() ==> FacesGoal()
    {
      if !phase.Idle? {
        ghost var start := |reached|;
        var active := Invoke();
        if active {
          ghost var afterFirst := commands;
          Continue(start);
          assert afterFirst <= commands;
        }
      }
    }

    /**
     * The callback chain after an invocation that finished with the path not
     * done: its completion callback starts the next controller at once
     * (:207-209, :170-171, :225), with nothing carried, and the chain goes on
     * while invocations keep finishing.
     */
    method Continue(ghost from: nat)
      requires Valid() && !phase.Idle? && !timerPending && phase.previousError == 0.0 && phase.integral == 0.0
      requires from <= |reached| && AllWithinTolerance(reached[from..])
      requires FacesGoal()
      modifies this`commands, this`phase, this`timerPending, this`reached, this`completions
      ensures Valid() && Settled()
      ensures |commands| > |old(commands)| && old(commands) <= commands && old(reached) <= reached
      ensures phase.Remaining() <= old(phase).Remaining()
      ensures AllWithinTolerance(reached[from..])
      ensures timerPending ==> Carries(phase, 0.0)
      ensures FacesGoal()
      decreases phase.Remaining()
    {
      ghost var before := reached;
      var going := Invoke();
      WithinToleranceExtend(from, before, reached);
      if going {
        Continue(from);
      }
    }

    /** The scheduled setTimeout fires (:120-122, :194-196): the controller runs again with what it carried. */
    method Tick()
      requires Valid() && Settled()
      modifies this`commands, this`phase, this`timerPending, this`reached, this`completions
      ensures Valid() && Settled()
      ensures !old(timerPending) ==> commands == old(commands) && phase == old(phase)
      ensures old(timerPending) ==> |commands| > |old(commands)| && old(commands) <= commands
      ensures old(timerPending) ==> StepCommand(old(phase), commands[|old(commands)|])
      ensures old(reached) <= reached && phase.Remaining() <= old(phase).Remaining()
      ensures AllWithinTolerance(reached[|old(reached)|..])
      ensures old(timerPending) && timerPending ==>
                || (phase.AtStart() == old(phase).AtStart() && Carries(phase, old(phase).integral))
                || (phase.Remaining() < old(phase).Remaining() && Carries(phase, 0.0))
      ensures phase.Remaining() < old(phase).Remaining() ==> FacesGoal()
    {
      if timerPending {
        timerPending := false;
        Run();
      }
    }

    /**
     * drawPath(xyArray, callback) (:217-229) on an idle turtle: an empty array
     * invokes the callback at once and publishes nothing; otherwise the first
     * waypoint's controllers start at once.
     */
    method DrawPath(xyArray: seq<Point>)
      requires Valid() && Settled() && phase.Idle?
      modifies this`commands, this`phase, this`timerPending, this`reached, this`completions, this`path, this`drawPathCalls
      ensures Valid() && Settled()
      ensures path == xyArray && drawPathCalls == old(drawPathCalls) + 1
      ensures xyArray == [] ==> commands == old(commands) && phase == Idle && completions == old(completions) + 1
      ensures xyArray != [] ==> |commands| > |old(commands)| && old(commands) <= commands
      ensures xyArray != [] ==>
                StepCommand(Aligning(ThetaForGoalPosition(xyArray[0]), xyArray[0], xyArray[1..], 0.0, 0.0), commands[|old(commands)|])
      ensures AllWithinTolerance(reached)
      ensures timerPending ==> Carries(phase, 0.0)
      ensures FacesGoal()
    {
      BeginPath(xyArray);
      Run();
    }

    /**
     * The synchronous start of drawPath (:217-229) before any controller runs:
     * the path is recorded, nothing of it is reached yet, and drawPath's own
     * step either invokes the callback or starts goToCoordinates.
     */
    method BeginPath(xyArray: seq<Point>)
      requires Valid() && Settled() && phase.Idle?
      modifies this`phase, this`reached, this`completions, this`path, this`drawPathCalls
      ensures Valid() && reached == [] && !timerPending
      ensures path == xyArray && drawPathCalls == old(drawPathCalls) + 1
      ensures xyArray == [] ==> phase == Idle && completions == old(completions) + 1
      ensures xyArray != [] ==> phase == Aligning(ThetaForGoalPosition(xyArray[0]), xyArray[0], xyArray[1..], 0.0, 0.0)
    {
      path := xyArray;
      reached := [];
      drawPathCalls := drawPathCalls + 1;
      ContinuePath(xyArray);
    }
  }

  /** With setCurrentPose as written, a sample's linear velocity is lost. */
  method LinearVelocityLost() returns (reported: real, stored: real)
    ensures reported == 1.0 && stored == 0.0
  {
    var t := new SimulatedTurtle(5.5, 5.5, 0.0, "turtle2");
    var sample := Pose(6.0, 5.5, 0.0, 0.0, 1.0);
    t.SetCurrentPoseAsWritten(sample);
    reported, stored := sample.linearVelocity, t.linearVelocity;
  }
}
