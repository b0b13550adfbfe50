# Backyard flyer: a Dafny model of the mission state machine

`backyard_flyer.py` flies a vehicle through one mission. The vehicle starts in
MANUAL. It arms, takes off to 3.0, flies a 15 by 15 box of twelve waypoints,
lands and stops. The box waypoints are not at the takeoff altitude: they sit
3.0 above the altitude the vehicle has when the box is generated
(`backyard_flyer.py:105-110`), so at 6.0 after a climb to 3.0. Nothing in the
mission code loops or blocks. The vehicle base
class stores each telemetry message (local position, local velocity, global
position, armed and guided flags) and then runs the callback registered for that
kind of message. A callback compares the new telemetry with the mission state.
It may then call a `*_transition` method, which sends commands to the vehicle
and moves to the next flight state.

The model has five modules:

- `Geometry` holds the three-component vectors and the horizontal comparisons.
  A `norm(...) < 1.0` test is modelled on squared norms.
  `NormBelowOneIffSquareBelowOne` and `NormBelowOneIffHorizontalSquareBelowOne`
  show the two readings agree.
- `Waypoints` holds `calculate_box` as a pure function, with two partners:
  - a reference definition that walks the perimeter of the square;
  - `IsBox`, which recognises a generated box from its last waypoint.
- `Mission` holds the state machine as pure functions.
  - Each function maps the mission context before a callback or transition to
    the context after it.
  - The context holds the object's fields, the telemetry snapshot and a log of
    the commands sent.
  - Commands are fire-and-forget in the source, so sending one means appending
    it to the log.
  - `Receive` is the base class's dispatch: store the payload, then run the
    callback.
- `MissionTrace` holds whole missions, as `Run` over a sequence of telemetry
  messages. It proves:
  - an invariant of every context reachable from a new mission;
  - what any such mission can send;
  - the box being flown to the end and landed;
  - a complete reference mission;
  - that nothing changes once the mission has ended.
- `Flyer` holds `BackyardFlyer` as a class whose fields are updated in place.
  - Every method is proved to change the object exactly as the matching
    `Mission` function changes the context.

The code does not always do what its own docstrings and method names
describe. Where they differ, the model follows the code, with one exception,
the landing guard:

- `arming_transition` (`backyard_flyer.py:114-128`) describes taking control,
  arming and setting home. But on the guided flag, `state_callback` only sets
  ARMING (`backyard_flyer.py:85-87`) and never calls it. So no take-control,
  arm or set-home command is ever sent. `Mission.ArmingTransition` is
  modelled, but nothing calls it.
- `disarming_transition` (`backyard_flyer.py:169-183`) is never called. In
  LANDING, `state_callback` sends `stop` and clears `in_mission`
  (`backyard_flyer.py:91-94`), and the vehicle stays in LANDING.
  `MissionTrace.MissionFromTelemetry` proves that DISARMING is unreachable and
  that no disarm command is sent.
- The landing guard is the exception. It is written `~self.armed &
  ~self.guided` (`backyard_flyer.py:92`), and the main model reads it as
  "neither armed nor guided" (`Mission.Disengaged`). That reading is used by
  `Mission.StateCallback`, `Mission.Receive`, `Flyer.BackyardFlyer.StateCallback`
  and every result in `MissionTrace` built on `Run`. On bool flags, the guard
  as written is always true: every state message in LANDING stops the
  mission. That behaviour is modelled by `Mission.StateCallbackAsWritten`
  (see "## Findings"). `MissionTrace.StateCallbackAsWrittenKeepsInv` proves
  that the as-written callback keeps the same reachable-state invariant, and
  `MissionTrace.RunAsWrittenKeepsInv` extends that to every sequence of
  messages dispatched with it. So the invariant does not depend on the
  correction.
- The callbacks and transitions have no guards of their own. A transition
  method called out of its state is not refused, and neither is it in the
  model.

## Model

| member | source | states |
|---|---|---|
| Geometry.HorizontalNormSquared | backyard_flyer.py:54 | the squared horizontal speed is never negative, and it is zero for a vehicle with no horizontal velocity |
| Geometry.HorizontalDistanceSquared | backyard_flyer.py:50 | the squared horizontal distance is never negative, and it is zero when the two points agree horizontally |
| Geometry.NormBelowOneIffSquareBelowOne | backyard_flyer.py:50-54 | a norm is below 1.0 exactly when its square is, so the proximity and speed tests can be read on squared norms |
| Geometry.NormBelowOneIffHorizontalSquareBelowOne | backyard_flyer.py:50-54 | for any vector, a non-negative root of its squared horizontal norm is below 1.0 exactly when that squared norm is, so `Arrived` and `Settled` decide the tests at lines 50 and 54 |
| Waypoints.CalculateBox | backyard_flyer.py:98-112 | twelve waypoints, all 3.0 above the current altitude and on the 15 by 15 square anchored at the current position; the first is one 5.0 step from the reference (Reference: the local position with its down coordinate turned into an altitude), each next one is one 5.0 step along a single axis from the last, and the last is back over the start |
| Waypoints.BoxWalksPerimeter | backyard_flyer.py:107-110 | waypoint i is the point 5(i+1) along the perimeter (north, then east, then south, then west), so the box goes round the square exactly once |
| Waypoints.CalculateBoxIsBox | backyard_flyer.py:105-112 | every generated box is recognised by `IsBox`, because its last waypoint determines the position it was generated from |
| Mission.PositionCommand | backyard_flyer.py:154 | the go-to command is a position command with heading 0.0 from which TargetOf reads back exactly the waypoint it was built for |
| Mission.Init | backyard_flyer.py:28-34 | a new mission is MANUAL and in mission, with its target at the origin, an empty queue and no command sent |
| Mission.Climbed | backyard_flyer.py:46 | with the target altitude at 3.0, the climb test passes exactly when the altitude (the negated down coordinate) is above 2.85 |
| Mission.Arrived | backyard_flyer.py:50 | a vehicle horizontally over its target passes the proximity test |
| Mission.Settled | backyard_flyer.py:54 | a vehicle with no horizontal velocity passes the low-speed test |
| Mission.Disengaged | backyard_flyer.py:92 | the intended guard holds exactly when the as-written `~armed & ~guided` is -1, which is the value it takes when both flags are clear |
| Mission.ArmingTransition | backyard_flyer.py:114-128 | sends take-control, arm and set-home at the current global position, in that order; enters ARMING; changes nothing else |
| Mission.TakeoffTransition | backyard_flyer.py:130-141 | sets only the target's altitude to 3.0; sends a takeoff to 3.0; enters TAKEOFF; changes nothing else |
| Mission.WaypointTransition | backyard_flyer.py:143-155 | the head of the queue becomes the target and leaves the queue; a go-to command for it is sent; enters WAYPOINT; mission flag and telemetry unchanged |
| Mission.LandingTransition | backyard_flyer.py:157-167 | sends land; enters LANDING; changes nothing else |
| Mission.DisarmingTransition | backyard_flyer.py:169-183 | sends disarm then release-control; enters DISARMING; changes nothing else |
| Mission.ManualTransition | backyard_flyer.py:185-200 | sends release-control then stop; clears the mission flag; enters MANUAL; changes nothing else |
| Mission.LocalPositionCallback | backyard_flyer.py:41-55 | in TAKEOFF, once above 95% of the target altitude, generates the box and flies to its first waypoint with 11 left; in WAYPOINT, once within 1.0 of the target, flies to the next waypoint; the callback lands if and only if it is in WAYPOINT, has arrived, has an empty queue and is slower than 1.0; it changes nothing if and only if none of these cases applies; it never changes the telemetry or the mission flag |
| Mission.VelocityCallback | backyard_flyer.py:57-72 | the velocity callback changes nothing |
| Mission.StateCallback | backyard_flyer.py:74-96 | does nothing out of mission; MANUAL becomes ARMING when guided, with no command; ARMING takes off when armed; LANDING sends stop and leaves the mission, staying in LANDING, when neither armed nor guided; every other case changes nothing |
| Mission.Receive | backyard_flyer.py:37-39 | one message moves the flight state along at most one edge of MANUAL, ARMING, TAKEOFF, WAYPOINT, LANDING; it sends at most one command and only appends to the log; the queue only shrinks, except when the box is generated; the mission flag is never set again; a velocity or global-position message only stores its payload |
| Mission.PyInvert | backyard_flyer.py:92 | Python's `~` on a bool flag gives the complement of 0 or 1, that is -1 or -2; `LandingGuardAsWritten` ands two of these and tests the result against zero, which is line 92 as Python evaluates it |
| Mission.StateCallbackAsWritten | backyard_flyer.py:84-96 | with the guard as written, LANDING in mission always appends stop and clears the mission flag, and changes nothing else (the flight state stays LANDING); every other case is as in the corrected callback |
| Mission.LandingGuardAsWrittenAlwaysHolds | backyard_flyer.py:92 | the guard as written is true for all four combinations of the flags |
| Mission.AsWrittenStopsWhileArmed | backyard_flyer.py:91-94 | while still armed and guided in LANDING, the code as written stops the mission, where the intended guard leaves it unchanged |
| MissionTrace.EnterBoxKeepsInv | backyard_flyer.py:45-48 | generating the box after takeoff sets up the invariant of WAYPOINT: the commanded targets and the queue together form one box |
| MissionTrace.NextWaypointKeepsInv | backyard_flyer.py:51-52 | flying to the next waypoint keeps the commanded targets plus the queue one box, and the target the last one commanded |
| MissionTrace.LandKeepsInv | backyard_flyer.py:53-55 | landing after the last waypoint sets up the invariant of LANDING: twelve box waypoints commanded in order, then land |
| MissionTrace.PositionCallbackKeepsInv | backyard_flyer.py:41-55 | the position callback keeps the reachable-state invariant |
| MissionTrace.StateCallbackKeepsInv | backyard_flyer.py:74-96 | the state callback keeps the reachable-state invariant |
| MissionTrace.StateCallbackAsWrittenKeepsInv | backyard_flyer.py:84-96 | the state callback with the guard as written also keeps the reachable-state invariant |
| MissionTrace.RunAsWrittenKeepsInv | backyard_flyer.py:37-39 | dispatching any sequence of messages with the state callback as written (line 92 unchanged) also keeps the reachable-state invariant |
| MissionTrace.ReceiveKeepsInv | backyard_flyer.py:37-39 | every telemetry message keeps the reachable-state invariant |
| MissionTrace.RunKeepsInv | backyard_flyer.py:37-39 | every sequence of telemetry messages keeps the reachable-state invariant |
| MissionTrace.MissionFromTelemetry | backyard_flyer.py:24-96 | a mission driven by telemetry alone never reaches DISARMING; it sends only the takeoff to 3.0, go-to commands with heading 0.0, land and stop, at most 15 commands in all; once landing, it has commanded the twelve waypoints of one box in order; it leaves the mission only in LANDING, with stop as its last command |
| MissionTrace.ReceivePosition | backyard_flyer.py:37 | a position message stores the position and then runs the position callback |
| MissionTrace.ArriveAndFlyOn | backyard_flyer.py:49-52 | in WAYPOINT, arriving with waypoints queued flies to the next one |
| MissionTrace.ArriveAndLand | backyard_flyer.py:49-55 | in WAYPOINT, arriving slowly with the queue empty lands |
| MissionTrace.ArrivalsLand | backyard_flyer.py:49-55 | a vehicle at rest reports itself at the target and then at each queued waypoint in turn; the mission then commands exactly the queued waypoints in order, lands, and keeps its mission flag |
| MissionTrace.ReferenceGuidedArmed | backyard_flyer.py:84-90 | from a new mission, guided and then armed gives TAKEOFF with a target altitude of 3.0 and a single takeoff command |
| MissionTrace.ReferenceClimbed | backyard_flyer.py:45-48 | climbing to 3.0 in TAKEOFF enters WAYPOINT, flying to the first waypoint of the box generated there, with the other eleven queued |
| MissionTrace.ReferenceTakeoff | backyard_flyer.py:45-48 | guided, armed and climbed, a new mission flies to the first box waypoint, having sent the takeoff and one go-to command |
| MissionTrace.ReferenceStop | backyard_flyer.py:91-94 | in LANDING and in mission, a message clearing both flags sends stop and ends the mission, still in LANDING |
| MissionTrace.ReferenceMission | backyard_flyer.py:24-155 | the whole reference mission ends in LANDING, out of mission; it has sent exactly the takeoff to 3.0, the twelve box waypoints in order, land and stop, and its first waypoint is (5.0, 0.0, 6.0) |
| MissionTrace.InertStaysInert | backyard_flyer.py:41-96 | once out of mission and in neither TAKEOFF nor WAYPOINT, no sequence of messages changes the flight state, target, queue, mission flag or command log |
| MissionTrace.ManualTransitionEndsMission | backyard_flyer.py:185-200 | after the manual transition from any state, every later message leaves the vehicle in MANUAL, out of mission, with release-control and stop as the last commands |
| MissionTrace.StopEndsMission | backyard_flyer.py:91-94 | after the stop that ends a reachable mission, the flight state stays LANDING and no further command is sent |
| Flyer.BackyardFlyer.constructor | backyard_flyer.py:24-34 | a new flyer is MANUAL and in mission, with an empty queue, the target at the origin and no command sent |
| Flyer.BackyardFlyer.LocalPositionCallback | backyard_flyer.py:41-55 | updates the fields exactly as `Mission.LocalPositionCallback` |
| Flyer.BackyardFlyer.VelocityCallback | backyard_flyer.py:57-72 | changes nothing |
| Flyer.BackyardFlyer.StateCallback | backyard_flyer.py:74-96 | updates the fields exactly as `Mission.StateCallback` |
| Flyer.BackyardFlyer.ArmingTransition | backyard_flyer.py:114-128 | updates the fields exactly as `Mission.ArmingTransition` |
| Flyer.BackyardFlyer.TakeoffTransition | backyard_flyer.py:130-141 | updates the fields exactly as `Mission.TakeoffTransition`; only the altitude of the target changes |
| Flyer.BackyardFlyer.WaypointTransition | backyard_flyer.py:143-155 | updates the fields exactly as `Mission.WaypointTransition`; the popped head becomes the target |
| Flyer.BackyardFlyer.LandingTransition | backyard_flyer.py:157-167 | updates the fields exactly as `Mission.LandingTransition` |
| Flyer.BackyardFlyer.DisarmingTransition | backyard_flyer.py:169-183 | updates the fields exactly as `Mission.DisarmingTransition` |
| Flyer.BackyardFlyer.ManualTransition | backyard_flyer.py:185-200 | updates the fields exactly as `Mission.ManualTransition` |
| Flyer.BackyardFlyer.Receive | backyard_flyer.py:37-39 | stores the payload and runs the registered callback, updating the fields exactly as `Mission.Receive` |

## Left out

- Debug output (`DEBUG` and every `print`) is left out; it has no effect on the mission.
- `start`, the command-line entry point, the connection and the telemetry log
  file are left out. They are I/O.
- The vehicle base class is not part of this model: command bodies,
  `register_callback`, and how telemetry reaches the object. Commands are
  modelled as entries appended to a log. Dispatch is modelled as `Mission.Receive`:
  store the payload, then run the callback.
- The telemetry snapshot of a new object belongs to the base class. It is
  taken to start at zero vectors and unset flags.
- `check_state` is never read or written after `__init__`, so it is left out.
- The landing-completion check inside the docstring of `velocity_callback` is
  left out. It is not executable code.
- Floating point is left out: components are reals. The numpy norm tests are
  modelled on squared norms, which `Geometry.NormBelowOneIffSquareBelowOne`
  shows are equivalent. Non-finite telemetry cannot be represented.
- Concurrency is left out: callbacks are taken to run one at a time, to
  completion, in message order.
- Mission.WaypointTransition: requires a non-empty queue. The source raises on
  popping an empty list, but both callers only pop a non-empty queue, so that
  error path is not modelled.
- MissionTrace.ArrivalsLand: stated for a vehicle at rest (zero velocity). A
  vehicle slower than 1.0 behaves the same, but that is not proved.
- MissionTrace.ReferenceMission: one concrete mission, climbing from the
  origin to exactly 3.0. Other telemetry orders are covered only by the
  invariant in `MissionTrace.MissionFromTelemetry`.

## Findings

| source | as written | input that shows it | evidently intended | confidence | as-written member | corrected member |
|---|---|---|---|---|---|---|
| backyard_flyer.py:92 | the landing-complete guard applies Python's bitwise complement to the two bool flags and ands the results; these are -1 or -2, so the result is never zero and the guard is always true | in LANDING and in mission, a state message with armed and guided both true: the code sends stop and leaves the mission while the vehicle is still armed | stop only once the vehicle is neither armed nor guided | not executed; high if the base class keeps the flags as Python bools (the base class is not part of this model) | Mission.StateCallbackAsWritten, Mission.AsWrittenStopsWhileArmed | Mission.StateCallback, Mission.Disengaged |
