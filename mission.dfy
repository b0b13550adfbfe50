/** The flight-mission state machine of `BackyardFlyer`, as functions from the
    mission context before a callback or transition to the context after it.
    Commands to the vehicle are fire-and-forget, so each one is recorded by
    appending it to the `commands` log of the context. */
module Mission {
  import opened Geometry
  import opened Waypoints

  /** The flight states of the mission (`States`). */
  datatype FlightState = Manual | Arming | Takeoff | Waypoint | Landing | Disarming

  /** The vehicle commands the mission can send. */
  datatype Command =
    | TakeControl
    | Arm
    | SetHomePosition(longitude: real, latitude: real, altitude: real)
    | TakeoffTo(altitude: real)
    | CmdPosition(north: real, east: real, altitude: real, heading: real)
    | Land
    | Disarm
    | ReleaseControl
    | Stop

  /** Everything a callback reads or writes: the mission's own fields, the
      latest telemetry snapshot kept by the vehicle base class, and the log of
      commands sent so far. */
  datatype MissionContext = MissionContext(
    flightState: FlightState,
    targetPosition: Vec3,
    allWaypoints: seq<Vec3>,
    inMission: bool,
    localPosition: Vec3,
    localVelocity: Vec3,
    globalPosition: Vec3,
    armed: bool,
    guided: bool,
    commands: seq<Command>)

  /** A telemetry message; the base class stores its payload and then runs the
      callback registered for its kind. */
  datatype Event =
    | LocalPositionMsg(position: Vec3)
    | LocalVelocityMsg(velocity: Vec3)
    | GlobalPositionMsg(global: Vec3)
    | StateMsg(isArmed: bool, isGuided: bool)

  /** Altitude commanded by the takeoff transition. */
  const TargetAltitude: real := 3.0

  /** Fraction of the target altitude the vehicle must exceed to leave TAKEOFF. */
  const ClimbFraction: real := 0.95

  /** Heading sent with every position command. */
  const Heading: real := 0.0

  const Zero: Vec3 := Vec3(0.0, 0.0, 0.0)

  /** The go-to command for a waypoint, with the fixed heading. The field
      ensures are kept so that the trace proofs need not unfold the
      function; the last one says the target read back from the command is
      the waypoint itself. */
  function PositionCommand(p: Vec3): (c: Command)
    ensures c.CmdPosition? && c.heading == Heading
    ensures c.north == p.x && c.east == p.y && c.altitude == p.z
    ensures TargetOf(c) == p
  {
    CmdPosition(p.x, p.y, p.z, Heading)
  }

  /** The target a position command flies to (the origin for any other command). */
  function TargetOf(c: Command): Vec3
  {
    match c
    case CmdPosition(n, e, a, _) => Vec3(n, e, a)
    case _ => Zero
  }

  /** The vehicle has climbed above 95% of the target altitude (the down
      coordinate is negated into an altitude; the comparison is strict). */
  predicate Climbed(m: MissionContext): (b: bool)
    ensures m.targetPosition.z == TargetAltitude ==> (b <==> m.localPosition.z < -2.85)
  {
    -m.localPosition.z > ClimbFraction * m.targetPosition.z
  }

  /** Horizontally within 1.0 of the target: squared distance below 1.0. */
  predicate Arrived(m: MissionContext): (b: bool)
    ensures m.localPosition.x == m.targetPosition.x && m.localPosition.y == m.targetPosition.y ==> b
  {
    HorizontalDistanceSquared(m.targetPosition, m.localPosition) < 1.0
  }

  /** Horizontal speed below 1.0: squared norm below 1.0. */
  predicate Settled(m: MissionContext): (b: bool)
    ensures m.localVelocity.x == 0.0 && m.localVelocity.y == 0.0 ==> b
  {
    HorizontalNormSquared(m.localVelocity) < 1.0
  }

  /** The landing-complete guard, read as "neither armed nor guided". The
      source writes it with Python's `~` and `&`, which on `bool` flags is
      integer complement and is true for every pair of flags; this model takes
      the evident meaning (see `StateCallbackAsWritten` for the code as
      written). It holds exactly when that `~armed & ~guided` is -1, the one
      value the two flags clear give. */
  predicate Disengaged(m: MissionContext): (b: bool)
    ensures b <==> PyInvert(m.armed) & PyInvert(m.guided) == 0xFF
  {
    !m.armed && !m.guided
  }

  /** The telemetry of two contexts agrees. */
  predicate SameTelemetry(a: MissionContext, b: MissionContext)
  {
    && a.localPosition == b.localPosition && a.localVelocity == b.localVelocity
    && a.globalPosition == b.globalPosition && a.armed == b.armed && a.guided == b.guided
  }

  /** The context of a new mission: MANUAL, in mission, no waypoints, target
      at the origin, no command sent. The telemetry snapshot belongs to the
      base class, which is not part of this model; it starts at zero and
      unset flags here. */
  function Init(): (r: MissionContext)
    ensures r.flightState == Manual && r.inMission
    ensures r.targetPosition == Vec3(0.0, 0.0, 0.0) && r.allWaypoints == [] && r.commands == []
  {
    MissionContext(Manual, Zero, [], true, Zero, Zero, Zero, false, false, [])
  }

  /** `arming_transition`: take control, arm, set home to the current global
      position, enter ARMING. */
  function ArmingTransition(m: MissionContext): (r: MissionContext)
    ensures r.flightState == Arming
    ensures r.commands == m.commands + [TakeControl, Arm,
      SetHomePosition(m.globalPosition.x, m.globalPosition.y, m.globalPosition.z)]
    ensures r.(flightState := m.flightState, commands := m.commands) == m
  {
    m.(flightState := Arming,
       commands := m.commands + [TakeControl, Arm,
         SetHomePosition(m.globalPosition.x, m.globalPosition.y, m.globalPosition.z)])
  }

  /** `takeoff_transition`: set only the altitude of the target to 3.0, command
      a takeoff to 3.0, enter TAKEOFF. */
  function TakeoffTransition(m: MissionContext): (r: MissionContext)
    ensures r.flightState == Takeoff
    ensures r.targetPosition.z == TargetAltitude
    ensures r.targetPosition.x == m.targetPosition.x && r.targetPosition.y == m.targetPosition.y
    ensures r.commands == m.commands + [TakeoffTo(TargetAltitude)]
    ensures r.(flightState := m.flightState, targetPosition := m.targetPosition,
               commands := m.commands) == m
  {
    m.(flightState := Takeoff,
       targetPosition := m.targetPosition.(z := TargetAltitude),
       commands := m.commands + [TakeoffTo(TargetAltitude)])
  }

  /** `waypoint_transition`: pop the first waypoint into the target, command
      the vehicle to it, enter WAYPOINT. Popping an empty list raises in the
      source; both callers pop only a non-empty one. */
  function WaypointTransition(m: MissionContext): (r: MissionContext)
    requires |m.allWaypoints| > 0
    ensures r.flightState == Waypoint
    ensures r.targetPosition == m.allWaypoints[0]
    ensures r.allWaypoints == m.allWaypoints[1..]
    ensures |r.allWaypoints| == |m.allWaypoints| - 1
    ensures r.commands == m.commands + [PositionCommand(m.allWaypoints[0])]
    ensures r.inMission == m.inMission && SameTelemetry(r, m)
  {
    m.(flightState := Waypoint,
       targetPosition := m.allWaypoints[0],
       allWaypoints := m.allWaypoints[1..],
       commands := m.commands + [PositionCommand(m.allWaypoints[0])])
  }

  /** `landing_transition`: command a landing, enter LANDING. */
  function LandingTransition(m: MissionContext): (r: MissionContext)
    ensures r.flightState == Landing
    ensures r.commands == m.commands + [Land]
    ensures r.(flightState := m.flightState, commands := m.commands) == m
  {
    m.(flightState := Landing, commands := m.commands + [Land])
  }

  /** `disarming_transition`: disarm, release control, enter DISARMING. */
  function DisarmingTransition(m: MissionContext): (r: MissionContext)
    ensures r.flightState == Disarming
    ensures r.commands == m.commands + [Disarm, ReleaseControl]
    ensures r.(flightState := m.flightState, commands := m.commands) == m
  {
    m.(flightState := Disarming, commands := m.commands + [Disarm, ReleaseControl])
  }

  /** `manual_transition`: release control, stop, leave the mission, enter MANUAL. */
  function ManualTransition(m: MissionContext): (r: MissionContext)
    ensures r.flightState == Manual && !r.inMission
    ensures r.commands == m.commands + [ReleaseControl, Stop]
    ensures r.(flightState := m.flightState, inMission := m.inMission, commands := m.commands) == m
  {
    m.(flightState := Manual, inMission := false, commands := m.commands + [ReleaseControl, Stop])
  }

  /** `local_position_callback`, on the position already stored in the
      context. In TAKEOFF, once climbed, generate the box and fly to its first
      waypoint. In WAYPOINT, once arrived, fly to the next waypoint, or land if
      none is left and the vehicle has slowed down. Not guarded by `inMission`. */
  function LocalPositionCallback(m: MissionContext): (r: MissionContext)
    ensures SameTelemetry(r, m) && r.inMission == m.inMission
    ensures m.flightState == Takeoff && Climbed(m) ==>
      && r.flightState == Waypoint
      && r.targetPosition == CalculateBox(m.localPosition)[0]
      && r.allWaypoints == CalculateBox(m.localPosition)[1..]
      && |r.allWaypoints| == 11
      && r.commands == m.commands + [PositionCommand(r.targetPosition)]
    ensures m.flightState == Waypoint && Arrived(m) && |m.allWaypoints| > 0 ==>
      r == WaypointTransition(m)
    ensures (r.flightState == Landing && m.flightState != Landing) <==>
      (m.flightState == Waypoint && Arrived(m) && m.allWaypoints == [] && Settled(m))
    ensures r.flightState == Landing && m.flightState != Landing ==> r == LandingTransition(m)
    ensures r == m <==>
      !(|| (m.flightState == Takeoff && Climbed(m))
        || (m.flightState == Waypoint && Arrived(m) && (m.allWaypoints != [] || Settled(m))))
  {
    if m.flightState == Takeoff then
      if Climbed(m) then WaypointTransition(m.(allWaypoints := CalculateBox(m.localPosition)))
      else m
    else if m.flightState == Waypoint then
      if Arrived(m) then
        if |m.allWaypoints| > 0 then WaypointTransition(m)
        else if Settled(m) then LandingTransition(m)
        else m
      else m
    else m
  }

  /** `velocity_callback` does nothing. */
  function VelocityCallback(m: MissionContext): (r: MissionContext)
    ensures r == m
  {
    m
  }

  /** `state_callback`, on the flags already stored in the context. Only while
      in mission: MANUAL becomes ARMING when guided (no command is sent);
      ARMING takes off when armed; LANDING stops and leaves the mission when
      disengaged but stays LANDING. Every other case changes nothing. */
  function StateCallback(m: MissionContext): (r: MissionContext)
    ensures SameTelemetry(r, m)
    ensures !m.inMission ==> r == m
    ensures m.inMission && m.flightState == Manual ==>
      r == m.(flightState := if m.guided then Arming else Manual)
    ensures m.inMission && m.flightState == Arming ==>
      r == if m.armed then TakeoffTransition(m) else m
    ensures m.inMission && m.flightState == Landing && Disengaged(m) ==>
      && r.flightState == Landing && !r.inMission
      && r.commands == m.commands + [Stop]
      && r.allWaypoints == m.allWaypoints && r.targetPosition == m.targetPosition
    ensures m.flightState in {Takeoff, Waypoint, Disarming} ==> r == m
    ensures m.flightState == Landing && !Disengaged(m) ==> r == m
  {
    if !m.inMission then m
    else match m.flightState
      case Manual => if m.guided then m.(flightState := Arming) else m
      case Arming => if m.armed then TakeoffTransition(m) else m
      case Landing => if Disengaged(m) then m.(commands := m.commands + [Stop], inMission := false) else m
      case _ => m
  }

  /** The edges a telemetry message may take the flight state along. */
  predicate Edge(from: FlightState, to: FlightState)
  {
    || from == to
    || (from == Manual && to == Arming)
    || (from == Arming && to == Takeoff)
    || (from == Takeoff && to == Waypoint)
    || (from == Waypoint && to == Landing)
  }

  /** Dispatch of one telemetry message by the vehicle base class: the payload
      is stored, then the callback registered for that message kind runs. The
      global position has no callback of its own. */
  function Receive(m: MissionContext, e: Event): (r: MissionContext)
    ensures Edge(m.flightState, r.flightState)
    ensures m.commands <= r.commands && |r.commands| <= |m.commands| + 1
    ensures |r.allWaypoints| <= |m.allWaypoints| || (m.flightState == Takeoff && r.flightState == Waypoint)
    ensures r.inMission ==> m.inMission
    ensures e.LocalVelocityMsg? ==> r == m.(localVelocity := e.velocity)
    ensures e.GlobalPositionMsg? ==> r == m.(globalPosition := e.global)
  {
    match e
    case LocalPositionMsg(p) => LocalPositionCallback(m.(localPosition := p))
    case LocalVelocityMsg(v) => VelocityCallback(m.(localVelocity := v))
    case GlobalPositionMsg(g) => m.(globalPosition := g)
    case StateMsg(a, g) => StateCallback(m.(armed := a, guided := g))
  }

  // ---------------------------------------------------------------------------
  // The landing-complete guard as written.

  /** Python's `~` applied to a `bool` flag: the flag is promoted to the
      integer 0 or 1 and complemented, giving -1 or -2. Eight-bit two's
      complement represents both exactly, and `&` of two negative integers is
      negative, so its truth agrees with the unbounded integers. */
  function PyInvert(flag: bool): (r: bv8)
    ensures r == if flag then 0xFE else 0xFF
  {
    !(if flag then 1 as bv8 else 0 as bv8)
  }

  /** The guard `~armed & ~guided` as Python evaluates it on `bool` flags:
      true when the resulting integer is non-zero. */
  predicate LandingGuardAsWritten(armed: bool, guided: bool)
  {
    PyInvert(armed) & PyInvert(guided) != 0
  }

  /** The guard as written holds for every combination of flags. */
  lemma LandingGuardAsWrittenAlwaysHolds(armed: bool, guided: bool)
    ensures LandingGuardAsWritten(armed, guided)
  {
  }

  /** `state_callback` exactly as written, guard included. */
  function StateCallbackAsWritten(m: MissionContext): (r: MissionContext)
    ensures m.inMission && m.flightState == Landing ==>
      r == m.(commands := m.commands + [Stop], inMission := false)
    ensures !(m.inMission && m.flightState == Landing) ==> r == StateCallback(m)
  {
    if m.inMission && m.flightState == Landing then
      if LandingGuardAsWritten(m.armed, m.guided) then
        m.(commands := m.commands + [Stop], inMission := false)
      else m
    else StateCallback(m)
  }

  /** The discrepancy: while the vehicle still reports armed and guided, the
      code as written stops the mission at the first state message after the
      landing command, where the intended guard waits. */
  lemma AsWrittenStopsWhileArmed(m: MissionContext)
    requires m.inMission && m.flightState == Landing && m.armed && m.guided
    ensures StateCallbackAsWritten(m).commands == m.commands + [Stop]
    ensures !StateCallbackAsWritten(m).inMission
    ensures StateCallback(m) == m
  {
    LandingGuardAsWrittenAlwaysHolds(m.armed, m.guided);
  }
}
