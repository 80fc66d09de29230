# Turtle fleet: a Dafny model of its motion control, path flattening and fleet replacement

The system drives a fleet of turtlesim turtles along paths taken from an SVG
drawing. This project models three sequential cores and proves properties of them.

**Motion controller** (`turtle.dfy`, module `Turtle`). This is `SimulatedTurtle`
from server/simulated-turtle.js.
- The angle wrap `thetaError` keeps its two while loops.
- The PID steps `goToTheta` and `goInLine` include the overshoot rule that drives
  the turtle backwards.
- The waypoint sequencing of `goToCoordinates` and `drawPath` is modelled, as is
  the pose feedback `setCurrentPose`.
- Each `setTimeout` re-invocation is one explicit method call on a
  `SimulatedTurtle` object. The object holds:
  - the pose;
  - the controller phase and what that phase carries, `(previousError, integral)`;
  - a log of the Twist commands published on `cmd_vel`.

**SVG path flattening** (`svg_tools.dfy`, module `SvgTools`). This is
client/js/svg-tools.js.
- The command loop of `pathsFromSvg` is stated twice:
  - as a function `Step` over the cursor (`absolutePoints`, `originPoint`, `lastPoint`);
  - as the nested loops of the source: the element loop in method `PathsFromSvg`,
    the command loop in method `TraceElement`. Together they are
    proved to compute what that function specifies.
- `applyTransform` is modelled for the `translate` form.
- The viewBox normalisation `scaledPaths` maps drawings into the 0.5..10.5 square.

**Fleet coordinator** (`fleet.dfy`, module `Fleet`). This is the start-up closure
of server/main.js: the registration of turtle2 and `drawPaths`.
- Requests to the turtlesim services `/kill` and `/spawn` are appended to a log.
- The Mongo `turtles` collection is a map from record ids to documents.
- Each `pose` listener is kept as the wrapper whose `exists` flag it reads plus
  the record it updates.

**Shared pieces.** `js_math.dfy` (module `JsMath`) models `Math.PI`, `Math.abs`,
`Math.atan2` and `Math.sqrt` over exact reals:
- `Math.PI` is an abstract constant between 3.14159265 and 3.14159266.
- `atan2` and `sqrt` are abstract functions. All that is known is that the first
  gives a bearing in [-PI, PI] and the second gives a non-negative root.

`options.dfy` holds the `Option` type.

**As written.** The fleet model composes the corrected turtle of the two
findings below: `drawPath` reaches `thetaError` as the static function, and a
pose sample updates the linear velocity from its own field. With the turtle
exactly as written, :79 of server/main.js throws on the first path. That case is
described under "## Left out" (`Fleet.Coordinator.SpawnFor`).

Apart from that, the model follows the code, not its intended design:
- The wrap range of `thetaError` is [-PI, PI], not (-PI, PI]. An input of exactly
  -PI (or -PI minus whole turns) is returned as -PI.
  - `Turtle.IsThetaError` pins down exactly when each end occurs.
  - `Turtle.ThetaErrorUnique` shows that this determines the result.
- The registry stores the path turtle itself, not its wrapper (server/main.js:81).
  As a result:
  - The `exists := false` at :44 lands on a property that nothing reads.
  - A replaced path turtle's listener still forwards pose samples. Pose
    suppression after a kill therefore holds only for turtle2, whose wrapper is
    registered (`Fleet.StartUpTurtleSilenced`, `Fleet.ReplacedTurtleStillListening`).
  - The records of replaced turtles are gone from the table, so a late sample
    still changes no record.
- `killTurtle` (:26-40) only starts waiting for the `/kill` service and sends
  the request once that wait resolves, after drawPaths has returned. The flag at
  :44 is therefore cleared before any kill request reaches turtlesim. The model
  logs the request at the point where `killTurtle` is called; that is the order
  of the calls, not of the messages.

## Model

| member | source | states |
|---|---|---|
| Turtle.ThetaError | server/simulated-turtle.js:144-156 | The loops terminate over exact reals. With doubles they do not always: for an error of magnitude above 2^56 (about 7.2e16), or an infinite one, subtracting 2 PI leaves the value unchanged. The call sites keep the error within 2 PI of the range. The result is the raw difference unchanged when its magnitude is below PI. Otherwise the result lies in [-PI, PI] and differs from the difference by whole turns; it is PI only for a difference of at least PI, and -PI only for one of at most -PI. |
| Turtle.ThetaErrorUnique | server/simulated-turtle.js:149-155 | That contract leaves exactly one possible result for each difference. |
| Turtle.ThetaErrorExamples | test/simulated-turtle.js:4-16 | The four cases of the tests give 0.5, -0.4, 0.4 and -0.4 exactly, over exact reals. |
| Turtle.ThetaErrorCallOnInstanceThrows | server/simulated-turtle.js:99 | `thetaError` is static, so the instance call at :99 and :173 finds no method: it is a TypeError. |
| Turtle.ClampSymmetric | server/simulated-turtle.js:113-119 | goToTheta's limit: the output stays in [-limit, limit]. It equals the input inside that range, is exactly limit above it and exactly -limit below it, and keeps the input's sign. |
| Turtle.NextIntegral | server/simulated-turtle.js:110 | For a positive interval, the carried integral grows exactly when the error is positive and shrinks exactly when it is negative. |
| Turtle.PidOutput | server/simulated-turtle.js:111-112 | With the integral and derivative gains at 0, as in both controllers, the PID output is the proportional term kp e. |
| Turtle.HeadingCommand | server/simulated-turtle.js:104-119 | The command of a non-final goToTheta step has linear 0 and angular within ±3.14. |
| Turtle.LineCommand | server/simulated-turtle.js:173-193 | The command of a non-final goInLine step has linear at most 1.5. Its angular part is 0 when the goal lies behind and the heading error otherwise. |
| Turtle.ClampAbove | server/simulated-turtle.js:189-193 | goInLine's limit: only values above the limit are cut; everything else passes unchanged. |
| Turtle.HeadingCommandLaw | server/simulated-turtle.js:104-119 | A non-final heading step commands linear 0 and angular clamp(10 e) within ±3.14, positive exactly when e is positive and negative exactly when e is negative. |
| Turtle.OvershootReverses | server/simulated-turtle.js:173-193 | A goal more than PI/2 off the heading gives angular 0 and linear exactly -2 distance: the error is negated and no lower limit applies. |
| Turtle.AheadDrivesForward | server/simulated-turtle.js:173-193 | Otherwise the angular command is the heading error itself and the linear command is clamp-above(2 distance, 1.5). |
| Turtle.LinearCommandBounded | server/simulated-turtle.js:189-193 | The linear command of goInLine never exceeds 1.5. |
| Turtle.SimulatedTurtle.constructor | server/simulated-turtle.js:15-26 | Initial pose as given, zero velocities, interval 10, tolerances 0.00005 and 0.005; idle, with no commands and no path. |
| Turtle.SimulatedTurtle.SetCurrentPose | server/simulated-turtle.js:68-75 | The corrected feedback update: all five pose fields are taken from the sample, each from its own field. |
| Turtle.SimulatedTurtle.SetCurrentPoseAsWritten | server/simulated-turtle.js:68-75 | As written: linearVelocity receives the sample's angular velocity. |
| Turtle.LinearVelocityLost | server/simulated-turtle.js:73 | With the update as written, a sample with linear velocity 1 leaves the stored linear velocity at 0. |
| Turtle.SimulatedTurtle.ThetaForGoalPosition | server/simulated-turtle.js:132-134 | The bearing to the goal lies in [-PI, PI]. |
| Turtle.SimulatedTurtle.DistanceTo | server/simulated-turtle.js:167-168 | The distance to the goal is non-negative. |
| Turtle.SimulatedTurtle.ContinuePath | server/simulated-turtle.js:206-229 | drawPath of the remaining waypoints: an empty rest runs the callback once and goes idle. Otherwise alignment starts towards the first waypoint, with its bearing computed once and nothing carried. The followed path stays reached + goal + rest. |
| Turtle.SimulatedTurtle.GoToTheta | server/simulated-turtle.js:98-124 | The error is the wrapped heading error. Within tolerance the step publishes (0, 0), finishes and starts the approach to the same goal with nothing carried. Otherwise it publishes the heading command, carries (e, integral + 10 e) and schedules itself; the path invariant is kept. |
| Turtle.SimulatedTurtle.GoInLine | server/simulated-turtle.js:166-198 | Below the distance tolerance the step publishes (0, 0), marks the goal reached and moves to the next waypoint, or to the callback. Otherwise it publishes the line command, carries the possibly negated distance and the integral, and schedules itself. |
| Turtle.SimulatedTurtle.ReachGoal | server/simulated-turtle.js:169-172 | The tolerance branch: stop, record the goal as reached, continue the path with the remaining waypoints. |
| Turtle.SimulatedTurtle.Steer | server/simulated-turtle.js:173-196 | The control branch: the wrapped heading error, the line command, the carried (signed distance, integral), and a scheduled re-invocation. |
| Turtle.SimulatedTurtle.Invoke | server/simulated-turtle.js:98-198 | One invocation of the controller in progress publishes exactly the command StepCommand describes: goToTheta's command from the wrapped heading error, or goInLine's from the distance and the wrapped bearing error, each with the error and integral the phase carries. A waypoint it marks reached lies within distanceTolerance of the pose. The invocation schedules itself again exactly when its controller does not finish (Finishes: the wrapped heading error within thetaTolerance, or the goal within distanceTolerance). The next controller runs at once exactly when it finishes with a phase still to follow. When the next controller runs at once, exactly one phase has been used up and the next starts with nothing carried, so an alignment hands over to the approach of the same goal, and a reached goal hands over to the alignment towards the next waypoint; an alignment it starts turns toward the bearing of its goal from the current position, as goToCoordinates computes it (FacesGoal). When the invocation schedules itself again, the phase keeps its goal and carries exactly what its controller computed from the pose (Carries): the wrapped heading error, or the signed distance, outside its tolerance, and the integral it had advanced by that error times the interval. |
| Turtle.SimulatedTurtle.CarriedPhaseUnique | server/simulated-turtle.js:98-198 | With the goal fixed, what a self-rescheduling invocation carries is determined by the pose and the integral it started from: two phases with the same goal that both satisfy Carries are equal. |
| Turtle.SimulatedTurtle.Continue | server/simulated-turtle.js:206-229 | The rest of the callback chain, entered on a phase with nothing carried, one recursive call per completion callback. It publishes at least one command and ends with a scheduled re-invocation or an idle turtle. When a re-invocation is scheduled, the phase carries exactly what its controller computed from the pose, starting from a zero integral. Every alignment it starts or leaves pending turns toward the bearing of its goal from the current position (FacesGoal). The log and the reached waypoints only grow, every waypoint reached since index `from` lies within distanceTolerance of the pose, and the phases left never increase. |
| Turtle.SimulatedTurtle.Run | server/simulated-turtle.js:206-229 | The synchronous callback chain until a step schedules itself. Its first command is the one the phase in progress computes from what it carries. The log and the reached waypoints only grow, every newly reached waypoint lies within distanceTolerance of the pose, and the phases left never increase, so the callback runs only once the last goal is reached. When a re-invocation is scheduled, either the phase in progress rescheduled itself, keeping its goal and carrying what its controller computed from the integral it had, or a later phase, with fewer phases left, did so from a zero integral. A later phase that is an alignment turns toward the bearing of its goal from the current position (FacesGoal). |
| Turtle.SimulatedTurtle.Tick | server/simulated-turtle.js:120-122 | A fired timer re-runs the carried controller with the carried (previousError, integral): its first command is the one StepCommand gives for that phase. The reached waypoints only grow, each new one within distanceTolerance of the pose, and the phases left never increase. When it schedules again, either the same goal carries what its controller computed from the carried integral, or a later phase carries what its controller computed from a zero integral; a later alignment turns toward the bearing of its goal from the current position (FacesGoal). With no timer pending, nothing changes. |
| Turtle.SimulatedTurtle.BeginPath | server/simulated-turtle.js:217-229 | drawPath's synchronous start: the path is recorded with nothing reached yet, and either the callback runs for an empty array or alignment towards xyArray[0]'s bearing starts with nothing carried. |
| Turtle.SimulatedTurtle.DrawPath | server/simulated-turtle.js:217-229 | The path is recorded. An empty array runs the callback once and publishes nothing. Otherwise the first command is that of goToTheta towards xyArray[0]'s bearing, computed once at the start, with nothing carried. Every waypoint marked reached lies within distanceTolerance of the pose. When a re-invocation is pending, the phase carries what its controller computed from the pose, starting from a zero integral, and an alignment turns toward the bearing of its goal from the current position (FacesGoal). |
| SvgTools.ApplyTransform | client/js/svg-tools.js:109-123 | No transform: the points unchanged. A translate: each point moved by (tx, ty), with ty 0 when only one amount is given. Any other transform: no result. |
| SvgTools.TranslateExample | test/svg-tools.js:13-14 | translate(1 1) maps [[1,1],[3,3]] to [[2,2],[4,4]]. |
| SvgTools.TranslateOneAmount | client/js/svg-tools.js:118 | A translate with one amount agrees with translate(tx 0) and keeps every y. |
| SvgTools.ScaledPaths | client/js/svg-tools.js:9-22 | The same number of paths, each with its number of points, each point mapped by x -> x/L*10 + xOffset and y -> yOffset - y/L*10. |
| SvgTools.ScaledPathsIgnoreMin | client/js/svg-tools.js:10-11 | min-x and min-y of the viewBox do not affect the result. |
| SvgTools.ScaledInSquare | client/js/svg-tools.js:12-18 | Every point of the [0,w] x [0,h] rectangle lands in [0.5, 10.5] x [0.5, 10.5]. |
| SvgTools.ScaledCentre | client/js/svg-tools.js:12-18 | The centre of the rectangle goes to (5.5, 5.5). |
| SvgTools.ScaledLongerSideSpans | client/js/svg-tools.js:12-18 | The longer side is stretched over the whole square, 0.5 to 10.5, with y flipped. |
| SvgTools.ScaledUniformly | client/js/svg-tools.js:17-18 | MapX and MapY, the maps of :17 and :18: both axes scale by the same factor 10/L: x keeps its direction and y is reversed. |
| SvgTools.ScaledExample | test/svg-tools.js:6-7 | viewBox '0 0 5 5' maps (1,1) to (2.5,8.5) and (3,3) to (6.5,4.5). |
| SvgTools.StepShape | client/js/svg-tools.js:42-96 | One command of the state machine: M and m start a subpath at their point (m always flushing, M only a non-empty subpath). The other drawing commands append exactly one point and keep the flushed subpaths and originPoint. Z and z keep lastPoint, and any other command changes nothing. |
| SvgTools.Trace | client/js/svg-tools.js:41-97 | The loop state after a path element's commands, folded by Step from the initial `false` points. At most one subpath is flushed per command acted on. |
| SvgTools.StepAddsOnePoint | client/js/svg-tools.js:42-96 | Each M, m, L, l, H, h, V, v, Z, z command adds exactly one point to the subpaths; any other command adds none. |
| SvgTools.PointCount | client/js/svg-tools.js:41-98 | The flattened subpaths of a path element hold exactly one point per command the loop acts on. |
| SvgTools.Subpaths | client/js/svg-tools.js:98 | The subpath in progress is always flushed at the end, so each element yields at least one subpath. |
| SvgTools.FlushedNonEmpty | client/js/svg-tools.js:42-50 | Without a relative moveto, no flushed subpath is empty (M flushes only a non-empty subpath). |
| SvgTools.LeadingAbsoluteMove | client/js/svg-tools.js:42-50 | A leading M flushes nothing and starts the subpath at its point. |
| SvgTools.LeadingRelativeMove | client/js/svg-tools.js:51-59 | A leading m flushes an empty subpath and starts from the undefined initial point. |
| SvgTools.RelativeMoveFlushes | client/js/svg-tools.js:42-59 | m agrees with M at lastPoint + offset when a subpath is in progress. On an empty one, m flushes an empty subpath and M does not. |
| SvgTools.RelativeLineIsAbsolute | client/js/svg-tools.js:60-69 | l (dx, dy) is L to lastPoint + (dx, dy). |
| SvgTools.AxisLinesAreLines | client/js/svg-tools.js:70-93 | H keeps the last y and V keeps the last x; h and v are H and V from lastPoint plus the offset. |
| SvgTools.CloseKeepsLastPoint | client/js/svg-tools.js:94-96 | Z appends originPoint and leaves lastPoint unchanged, so a following l starts from the point before the close. |
| SvgTools.Finish | client/js/svg-tools.js:100 | The final scaling yields no result exactly when some transformed subpath is undefined. |
| SvgTools.AllRawFails | client/js/svg-tools.js:98-100 | Some subpath is undefined exactly when some element has an unsupported transform. |
| SvgTools.TraceElement | client/js/svg-tools.js:41-97 | The command loop over one element's segments pushes onto paths exactly that element's flushed subpaths, each transformed, in order, and leaves the state machine's subpath in progress. |
| SvgTools.PathsFromSvg | client/js/svg-tools.js:29-101 | The nested loops compute every subpath of every element in document order, transformed and then scaled, which is the state-machine specification. There is no result exactly when some element has an unsupported transform. |
| Fleet.DecimalDigits | server/main.js:51 | The decimal text of the counter is non-empty and made of digits. |
| Fleet.TurtleName | server/main.js:51 | A name is 'turtle' followed by at least one digit. |
| Fleet.DecimalRoundTrip | server/main.js:51 | The decimal text of the counter reads back as the counter. |
| Fleet.TurtleNameInjective | server/main.js:51 | Different counter values give different names 'turtle' + counter. |
| Fleet.StartUpNames | server/main.js:12 | The counter starts at 2, and no value above 2 names turtle1 or turtle2. |
| Fleet.SpawnNamesDistinct | server/main.js:49-51 | Names within one call are distinct, and never meet names of a later call. |
| Fleet.KillRequests | server/main.js:42-43 | One kill request per registered turtle, by name, in registry order. |
| Fleet.SpawnedCount | server/main.js:49-54 | The paths spawned form the non-empty prefix; the first empty path, if any, stops the loop. |
| Fleet.SpawnedCountAt | server/main.js:49-54 | A loop that stops after the spawned passes stops exactly at SpawnedCount, and it passes over the whole list exactly when no path is empty. |
| Fleet.SpawnRequestsContents | server/main.js:49-58 | SpawnRequests, the spawn requests of one call, holds one request per spawned path. The b-th spawn request names counter value k + b + 1 and places the turtle at path b's first waypoint, theta 0. |
| Fleet.SpawnRecordsContents | server/main.js:64-73 | SpawnRecords, the table after one call, holds exactly the new records, under consecutive fresh ids. The b-th record holds turtle b's name and spawn pose, with zero velocities. |
| Fleet.AllPlacedSnoc | server/main.js:79-81 | Registering one more placed turtle keeps every earlier registry entry placed. |
| Fleet.TurtleWrapper.constructor | server/main.js:59-63 | A wrapper holds its name and turtle with exists true. |
| Fleet.Coordinator.constructor | server/main.js:84-103 | Start-up: kill turtle1, spawn turtle2 at (5.5, 5.5, 0), register its wrapper with exists true, insert its flat record, attach its gated listener; the counter is 2. |
| Fleet.Coordinator.KillAll | server/main.js:42-48 | Every registered turtle gets one kill request, in order, and is cleared: a wrapper loses its flag and its turtle, a bare turtle gets exists false. The registry and the table are emptied; the counter, ids and listeners are unchanged. The frame lets it write only the wrappers and the `exists` field of the bare turtles, so their pose, phase and command log stay as they were. |
| Fleet.Launch | server/main.js:79 | A newly constructed turtle starts drawPath over the whole path; it is the only drawPath call the turtle has had. The turtle is left consistent and settled, with a re-invocation pending exactly while it follows a path. Its first published command is goToTheta's step towards the bearing of path[0], with nothing carried (Launched). |
| Fleet.Coordinator.SpawnFor | server/main.js:50-81 | One pass: the counter advances and names a new turtle. It is spawned at the first waypoint with theta 0, and the turtle object itself holds that pose. It draws the whole path, is left settled and has published its first alignment command (Launched). Its record is inserted under the next id, a listener gated by a new live wrapper is attached, and the turtle itself is registered, placed as the entry for that counter value and record. |
| Fleet.Coordinator.SetUp | server/main.js:50-78 | The set-up of one pass: the counter advances and names the turtle, which is constructed idle, with no commands, at the first waypoint with theta 0. Its spawn request is logged, its record inserted under the next id and its listener gated by a new live wrapper; the registry is untouched. |
| Fleet.Coordinator.SpawnNext | server/main.js:49-81 | A pass over a non-empty path takes the loop state from b to b + 1 turtles. |
| Fleet.Coordinator.SkipEmpty | server/main.js:50-54 | An empty path advances the counter and changes nothing else. |
| Fleet.Coordinator.SpawnPasses | server/main.js:49-81 | The loop over the passes stops at the end of the paths or at the first empty path. It leaves the registry, requests, records and listeners of the b passes taken, and the counter advanced b times. |
| Fleet.Coordinator.SpawnAll | server/main.js:49-82 | After the spawn loop, the registry holds exactly the new turtles in path order, each named, drawing and gated open. The requests and records are those of the spawned prefix. The listeners are the earlier ones plus one per new turtle, and no others. The call succeeds exactly when no path is empty. |
| Fleet.Coordinator.DrawPaths | server/main.js:41-83 | Kill and clear every old entry, then spawn the non-empty prefix. The requests are the kills followed by the spawns. The counter advances once per pass taken, including the failing one. The old turtles' controllers are outside the frame apart from `exists`. |
| Fleet.Coordinator.DeliverPose | server/main.js:74-78 | A pose sample sets the turtle's pose. Its record's pose is updated only while the listener's wrapper flag is true and the record exists; otherwise the table is unchanged. |
| Fleet.StartUpTurtleSilenced | server/main.js:98-103 | After start-up, any drawPaths turns off turtle2's forwarding. |
| Fleet.ReplacedTurtleStillListening | server/main.js:74-81 | A replaced path turtle still forwards pose samples, but no record changes because its record is gone. Its controller phase and command log are left as they were, so it goes on driving. |

## Left out

- ROS: `initNode`, the service clients with `waitForService` and its 2000 ms timeout, `subscribe`, `advertise` and `publish` are network I/O. Only "request issued" (`Fleet.Coordinator.requests`) and "command published" (`Turtle.SimulatedTurtle.commands`) are modelled. A service that is not available is not modelled: the request is logged all the same.
- `killTurtle`'s response callback: drawPaths calls it without a callback. Invoking that callback when the response arrives is asynchronous and is not modelled.
- `setTimeout` and the EventEmitter wiring are one explicit method per event: `Tick` for a timer and `DeliverPose` for a pose sample. Timing between turtles, and interleavings other than whole method calls, are not modelled.
- Convergence of the control loops is not modelled. It depends on the turtlesim kinematics, on floating-point rounding and on the true `Math.PI`, `atan2` and `sqrt`. Numbers are exact reals, and `atan2` and `sqrt` are abstract.
- `previousError ? previousError : 0.0` and `integral ? integral : 0.0` (:108-109, :184-185) are modelled only for values the model carries. Every phase carries real numbers, starting at 0, for which the coalescing changes nothing. NaN is not a real.
- `setPen`, `teleportAbsolute`, `teleportRelative` and `setVelocity` beyond the command log are left out, as they are ROS service calls and topic I/O.
- DOMParser, `getElementsByTagName`, `getPathData`, `getAttribute` and `parseFloat` are foreign. Path elements arrive as parsed segments and numbers. The viewBox arrives as four reals, and a translate arrives as its amounts after the split.
- SvgTools.ScaledPaths: requires a non-zero longer side of the viewBox. A zero-sized viewBox makes the source divide by zero, giving Infinity or NaN, which exact reals cannot express. A missing viewBox attribute is not modelled: `getAttribute` returns null and `split` at client/js/svg-tools.js:10 throws a TypeError.
- SvgTools.Finish: requires a non-zero longer side of the viewBox, for the reason given for SvgTools.ScaledPaths.
- SvgTools.PathsFromSvg: requires a non-zero longer side of the viewBox, for the reason given for SvgTools.ScaledPaths.
- JavaScript numbers in svg_tools.dfy are a real or NaN. NaN also stands for `undefined` and for a coordinate of the initial `false` point. Infinity is not modelled.
- Fleet paths are sequences of real points. Malformed documents from the `paths` collection (missing or non-numeric coordinates) and the `observeChanges` wiring that calls drawPaths are not modelled.
- A paths document that arrives before `initNode` has resolved, while `drawPaths` is still null, is not modelled: in the source it throws.
- Mongo ids are random strings; here they are consecutive naturals that are never reused. The emptying at start-up (:13-14) is the initial empty table. The `paths` collection itself is not modelled.
- `turtleCounter` is an unbounded natural. JavaScript loses integer precision beyond 2^53, but no realistic run comes near that.
- Fleet.Coordinator.SpawnFor: composes the corrected turtle (the static thetaError reached as a function, and setCurrentPose taking each velocity from its own field). With the turtle exactly as written, `newTurtle.drawPath` at :79 throws a TypeError in its first goToTheta step (server/simulated-turtle.js:99). That happens after the spawn request, the record insert and the listener, but before `turtles.push` at :81. So, as written, drawPaths with the paths [[p1], [p2]] spawns only turtle3 and leaves the registry empty, and no later call kills turtle3. The model registers both turtles.
- Fleet.Coordinator.DeliverPose: sets the turtle's pose through the corrected setCurrentPose, which takes each velocity from its own sample field. As written (server/simulated-turtle.js:73), the turtle stores the sample's angular velocity as its linear velocity. Turtle.SimulatedTurtle.SetCurrentPoseAsWritten models that. The record update is unaffected, because it stores the sample itself (server/main.js:23, :76).
- Fleet.Coordinator.DrawPaths: inherits that composition from Fleet.Coordinator.SpawnFor. The as-written outcome above (one spawn, an empty registry) is not modelled.
- Fleet.Coordinator.DrawPaths: does not state that the spawned turtles and their wrappers are newly allocated objects, though Fleet.Coordinator.SpawnFor does for each pass. Carrying freshness through the spawn loop was left out to keep the proof small. For the same reason, Fleet.ReplacedTurtleStillListening cannot be applied to a coordinator that was just constructed and given one drawPaths call: its modifies clause cannot name the new turtles. Its precondition is met by such a coordinator; only the chaining is left unproved.
- Fleet.Coordinator.SpawnAll: models the loop :49-82 as a loop over the non-empty prefix of the paths, followed by one counter step for the empty path that throws. The observable effect is the same as the source's single loop.
- Turtle.SimulatedTurtle.Run: states the first command of the synchronous chain and that the phases left never increase. It does not state each later command of the chain (stops, then the command of the step that schedules itself), nor that the path is eventually completed. Completion depends on the external kinematics (see convergence above). When a later phase schedules itself, it states what that phase carries, but identifies its goal only through the path order that Valid keeps. The bearing of such a later alignment is stated: it is its goal's bearing from the current position (FacesGoal).
- Turtle.SimulatedTurtle.Tick: like Turtle.SimulatedTurtle.Run, it states only the first command of the chain, not the later ones, and not that the path is eventually completed. A later phase that schedules itself is identified only through the path order that Valid keeps; the bearing of a later alignment is its goal's bearing (FacesGoal).
- Turtle.SimulatedTurtle.DrawPath: like Turtle.SimulatedTurtle.Run, it states only the first command of the chain, not the later ones, and not that the path is eventually completed. The phase left scheduled is identified only through the path order that Valid keeps; an alignment left scheduled faces its goal's bearing (FacesGoal).
- Turtle.SimulatedTurtle.Continue: states what the phase that schedules itself carries, but not which goal of the path it has beyond the path order that Valid keeps; an alignment faces its goal's bearing (FacesGoal).
- Fleet.Coordinator.SpawnAll: the registry entries it states (Placed) give each turtle's name, path and single drawPath call, not that each turtle is left settled with its first command published. Fleet.Coordinator.SpawnFor states that for each pass; carrying it through the spawn loop was left out to keep the proof small.
- Fleet.Coordinator.DrawPaths: inherits that gap from Fleet.Coordinator.SpawnAll.
- client/main.js, client/js/turtlesim-demo.js, server/app.js and gulpfile.js are not part of this model. They are UI, web-server wiring and build tooling.

## Findings

| source | as written | input that shows it | evidently intended | confidence | as-written member | corrected member |
|---|---|---|---|---|---|---|
| server/simulated-turtle.js:99 | `thetaError` is declared static (:144) but goToTheta and goInLine call it on the instance (:99, :173) | any drawPath call with a non-empty path: the first goToTheta step raises a TypeError | the static method called on the class | not executed | Turtle.ThetaErrorCallOnInstanceThrows | Turtle.ThetaError |
| server/simulated-turtle.js:73 | setCurrentPose stores the sample's angular velocity as the linear velocity | a sample with linear velocity 1 and angular velocity 0 stores linear velocity 0 | linearVelocity taken from the sample's linear velocity | not executed | Turtle.LinearVelocityLost | Turtle.SimulatedTurtle.SetCurrentPose |
