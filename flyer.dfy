/** `BackyardFlyer` as an object whose callbacks and transitions update its
    fields in place. Each method is proved to change the object exactly as the
    matching function of module `Mission` changes the mission context; the
    commands sent to the vehicle are appended to the `commands` field. */
module Flyer {
  import opened Geometry
  import opened Waypoints
  import Mission

  class BackyardFlyer {
    // the mission's own fields
    var flightState: Mission.FlightState
    var targetPosition: Vec3
    var allWaypoints: seq<Vec3>
    var inMission: bool
    // the telemetry snapshot the vehicle base class keeps up to date
    var localPosition: Vec3
    var localVelocity: Vec3
    var globalPosition: Vec3
    var armed: bool
    var guided: bool
    // every command sent to the vehicle, oldest first
    var commands: seq<Mission.Command>

    /** The object's state as a mission context. */
    function Context(): Mission.MissionContext
      reads this
    {
      Mission.MissionContext(flightState, targetPosition, allWaypoints, inMission,
        localPosition, localVelocity, globalPosition, armed, guided, commands)
    }

    /** `__init__`: MANUAL, in mission, no waypoints, target at the origin. */
    constructor ()
      ensures Context() == Mission.Init()
      ensures flightState == Mission.Manual && inMission
      ensures allWaypoints == [] && targetPosition == Vec3(0.0, 0.0, 0.0) && commands == []
    {
      flightState := Mission.Manual;
      targetPosition := Vec3(0.0, 0.0, 0.0);
      allWaypoints := [];
      inMission := true;
      localPosition := Vec3(0.0, 0.0, 0.0);
      localVelocity := Vec3(0.0, 0.0, 0.0);
      globalPosition := Vec3(0.0, 0.0, 0.0);
      armed := false;
      guided := false;
      commands := [];
    }

    method LocalPositionCallback()
      modifies this
      ensures Context() == Mission.LocalPositionCallback(old(Context()))
    {
      if flightState == Mission.Takeoff {
        if -localPosition.z > Mission.ClimbFraction * targetPosition.z {
          allWaypoints := CalculateBox(localPosition);
          WaypointTransition();
        }
      } else if flightState == Mission.Waypoint {
        if HorizontalDistanceSquared(targetPosition, localPosition) < 1.0 {
          if |allWaypoints| > 0 {
            WaypointTransition();
          } else if HorizontalNormSquared(localVelocity) < 1.0 {
            LandingTransition();
          }
        }
      }
    }

    method VelocityCallback()
      ensures Context() == old(Context())
    {
    }

    method StateCallback()
      modifies this
      ensures Context() == Mission.StateCallback(old(Context()))
    {
      if inMission {
        if flightState == Mission.Manual {
          if guided {
            flightState := Mission.Arming;
          }
        } else if flightState == Mission.Arming {
          if armed {
            TakeoffTransition();
          }
        } else if flightState == Mission.Landing {
          // Read as "neither armed nor guided"; see Mission.Disengaged.
          if !armed && !guided {
            commands := commands + [Mission.Stop];
            inMission := false;
          }
        }
      }
    }

    method ArmingTransition()
      modifies this
      ensures Context() == Mission.ArmingTransition(old(Context()))
    {
      commands := commands + [Mission.TakeControl, Mission.Arm,
        Mission.SetHomePosition(globalPosition.x, globalPosition.y, globalPosition.z)];
      flightState := Mission.Arming;
    }

    method TakeoffTransition()
      modifies this
      ensures Context() == Mission.TakeoffTransition(old(Context()))
      ensures targetPosition == old(targetPosition).(z := Mission.TargetAltitude)
    {
      var targetAltitude := Mission.TargetAltitude;
      targetPosition := targetPosition.(z := targetAltitude);
      commands := commands + [Mission.TakeoffTo(targetAltitude)];
      flightState := Mission.Takeoff;
    }

    method WaypointTransition()
      requires |allWaypoints| > 0
      modifies this
      ensures Context() == Mission.WaypointTransition(old(Context()))
      ensures targetPosition == old(allWaypoints[0]) && allWaypoints == old(allWaypoints[1..])
    {
      targetPosition := allWaypoints[0];
      allWaypoints := allWaypoints[1..];
      commands := commands + [Mission.CmdPosition(targetPosition.x, targetPosition.y,
                                                  targetPosition.z, Mission.Heading)];
      flightState := Mission.Waypoint;
    }

    method LandingTransition()
      modifies this
      ensures Context() == Mission.LandingTransition(old(Context()))
    {
      commands := commands + [Mission.Land];
      flightState := Mission.Landing;
    }

    method DisarmingTransition()
      modifies this
      ensures Context() == Mission.DisarmingTransition(old(Context()))
    {
      commands := commands + [Mission.Disarm, Mission.ReleaseControl];
      flightState := Mission.Disarming;
    }

    method ManualTransition()
      modifies this
      ensures Context() == Mission.ManualTransition(old(Context()))
    {
      commands := commands + [Mission.ReleaseControl, Mission.Stop];
      inMission := false;
      flightState := Mission.Manual;
    }

    /** One telemetry message, dispatched as the vehicle base class does: the
        payload is stored, then the registered callback runs. */
    method Receive(e: Mission.Event)
      modifies this
      ensures Context() == Mission.Receive(old(Context()), e)
    {
      match e
      case LocalPositionMsg(p) =>
        localPosition := p;
        LocalPositionCallback();
      case LocalVelocityMsg(v) =>
        localVelocity := v;
        VelocityCallback();
      case GlobalPositionMsg(g) =>
        globalPosition := g;
      case StateMsg(a, g) =>
        armed, guided := a, g;
        StateCallback();
    }
  }
}
