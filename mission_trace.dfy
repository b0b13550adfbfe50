/** Whole missions: what holds of every context reachable from a new mission
    by telemetry messages alone, and what stays fixed once the mission has
    ended. */
module MissionTrace {
  import opened Geometry
  import opened Waypoints
  import opened Mission

  /** The context after a sequence of messages, delivered one at a time. */
  function Run(m: MissionContext, es: seq<Event>): MissionContext
    decreases |es|
  {
    if es == [] then m else Run(Receive(m, es[0]), es[1..])
  }

  /** The targets of a sequence of position commands. */
  function Targets(cs: seq<Command>): (ts: seq<Vec3>)
    ensures |ts| == |cs|
    ensures forall i :: 0 <= i < |cs| ==> ts[i] == TargetOf(cs[i])
  {
    seq(|cs|, i requires 0 <= i < |cs| => TargetOf(cs[i]))
  }

  /** A takeoff to the target altitude followed only by position commands. */
  predicate FlightLog(cs: seq<Command>)
  {
    && |cs| >= 1 && cs[0] == TakeoffTo(TargetAltitude)
    && forall i :: 1 <= i < |cs| ==> cs[i] == PositionCommand(TargetOf(cs[i]))
  }

  /** The invariant of every context a mission reaches by telemetry. Before
      the box exists no command has been sent but the takeoff. While flying
      the box, the waypoints commanded so far followed by those still queued
      make up one box, and the target is the last one commanded. Once landing,
      all twelve box waypoints have been commanded in order, then the landing,
      then at most a stop, which is what ends the mission. DISARMING is never
      reached. */
  predicate Inv(m: MissionContext)
  {
    match m.flightState
    case Manual => m.inMission && m.allWaypoints == [] && m.commands == []
    case Arming => m.inMission && m.allWaypoints == [] && m.commands == []
    case Takeoff =>
      && m.inMission && m.allWaypoints == [] && m.commands == [TakeoffTo(TargetAltitude)]
      && m.targetPosition.z == TargetAltitude
    case Waypoint =>
      && m.inMission
      && 2 <= |m.commands| && |m.commands| + |m.allWaypoints| == 13
      && FlightLog(m.commands)
      && IsBox(Targets(m.commands[1..]) + m.allWaypoints)
      && m.targetPosition == TargetOf(m.commands[|m.commands| - 1])
    case Landing =>
      && m.allWaypoints == []
      && |m.commands| == (if m.inMission then 14 else 15)
      && FlightLog(m.commands[..13])
      && IsBox(Targets(m.commands[1..13]))
      && m.commands[13] == Land
      && (!m.inMission ==> m.commands[14] == Stop)
    case Disarming => false
  }

  /** Appending a position command appends its target. */
  lemma TargetsSnoc(cs: seq<Command>, p: Vec3)
    ensures Targets(cs + [PositionCommand(p)]) == Targets(cs) + [p]
  {
  }

  /** Taking off and generating the box from any climbed position establishes
      the invariant of WAYPOINT. */
  lemma EnterBoxKeepsInv(m: MissionContext)
    requires Inv(m) && m.flightState == Takeoff && Climbed(m)
    ensures Inv(LocalPositionCallback(m))
  {
  }

  /** Flying to the next queued waypoint keeps the invariant of WAYPOINT. */
  lemma NextWaypointKeepsInv(m: MissionContext)
    requires Inv(m) && m.flightState == Waypoint && |m.allWaypoints| > 0
    ensures Inv(WaypointTransition(m))
  {
    var r := WaypointTransition(m);
    var w := m.allWaypoints[0];
    assert r.commands[1..] == m.commands[1..] + [PositionCommand(w)];
    TargetsSnoc(m.commands[1..], w);
    assert Targets(r.commands[1..]) + r.allWaypoints
        == Targets(m.commands[1..]) + ([w] + m.allWaypoints[1..]);
    assert [w] + m.allWaypoints[1..] == m.allWaypoints;
  }

  /** Landing after the last waypoint establishes the invariant of LANDING. */
  lemma LandKeepsInv(m: MissionContext)
    requires Inv(m) && m.flightState == Waypoint && m.allWaypoints == []
    ensures Inv(LandingTransition(m))
  {
    var r := LandingTransition(m);
    assert r.commands[..13] == m.commands;
    assert r.commands[1..13] == m.commands[1..];
    assert Targets(m.commands[1..]) + [] == Targets(m.commands[1..]);
  }

  /** The position callback keeps the invariant. */
  lemma PositionCallbackKeepsInv(m: MissionContext)
    requires Inv(m)
    ensures Inv(LocalPositionCallback(m))
  {
    if m.flightState == Takeoff && Climbed(m) {
      EnterBoxKeepsInv(m);
    } else if m.flightState == Waypoint && Arrived(m) {
      if |m.allWaypoints| > 0 {
        NextWaypointKeepsInv(m);
      } else if Settled(m) {
        LandKeepsInv(m);
      }
    }
  }

  /** The state callback keeps the invariant. */
  lemma StateCallbackKeepsInv(m: MissionContext)
    requires Inv(m)
    ensures Inv(StateCallback(m))
  {
  }

  /** The state callback with the landing guard as written keeps the
      invariant as well: it only stops earlier (see `RunAsWrittenKeepsInv`
      for whole sequences of messages). */
  lemma StateCallbackAsWrittenKeepsInv(m: MissionContext)
    requires Inv(m)
    ensures Inv(StateCallbackAsWritten(m))
  {
    if m.inMission && m.flightState == Landing {
      LandingGuardAsWrittenAlwaysHolds(m.armed, m.guided);
      var r := StateCallbackAsWritten(m);
      assert r.commands[..13] == m.commands[..13];
      assert r.commands[1..13] == m.commands[1..13];
    } else {
      StateCallbackKeepsInv(m);
    }
  }

  /** Every telemetry message keeps the invariant. */
  lemma ReceiveKeepsInv(m: MissionContext, e: Event)
    requires Inv(m)
    ensures Inv(Receive(m, e))
  {
    match e
    case LocalPositionMsg(p) =>
      ReceivePosition(m, p);
      PositionCallbackKeepsInv(m.(localPosition := p));
    case LocalVelocityMsg(v) =>
      TelemetryKeepsInv(m, Receive(m, e));
    case GlobalPositionMsg(g) =>
      TelemetryKeepsInv(m, Receive(m, e));
    case StateMsg(a, g) =>
      StateCallbackKeepsInv(m.(armed := a, guided := g));
  }

  /** The invariant does not depend on the telemetry snapshot. */
  lemma TelemetryKeepsInv(m: MissionContext, n: MissionContext)
    requires Inv(m)
    requires n.flightState == m.flightState && n.inMission == m.inMission
    requires n.targetPosition == m.targetPosition && n.allWaypoints == m.allWaypoints
    requires n.commands == m.commands
    ensures Inv(n)
  {
  }

  /** Every sequence of telemetry messages keeps the invariant. */
  lemma {:induction false} RunKeepsInv(m: MissionContext, es: seq<Event>)
    requires Inv(m)
    ensures Inv(Run(m, es))
    decreases |es|
  {
    if es != [] {
      ReceiveKeepsInv(m, es[0]);
      RunKeepsInv(Receive(m, es[0]), es[1..]);
    }
  }

  /** Dispatch with the state callback as written (the landing guard of
      line 92 unchanged); every other message as in `Receive`. */
  function ReceiveAsWritten(m: MissionContext, e: Event): MissionContext
  {
    match e
    case StateMsg(a, g) => StateCallbackAsWritten(m.(armed := a, guided := g))
    case _ => Receive(m, e)
  }

  /** The context after a sequence of messages dispatched as written. */
  function RunAsWritten(m: MissionContext, es: seq<Event>): MissionContext
    decreases |es|
  {
    if es == [] then m else RunAsWritten(ReceiveAsWritten(m, es[0]), es[1..])
  }

  /** The code as written keeps the invariant over every sequence of
      messages too. */
  lemma {:induction false} RunAsWrittenKeepsInv(m: MissionContext, es: seq<Event>)
    requires Inv(m)
    ensures Inv(RunAsWritten(m, es))
    decreases |es|
  {
    if es != [] {
      if es[0].StateMsg? {
        StateCallbackAsWrittenKeepsInv(m.(armed := es[0].isArmed, guided := es[0].isGuided));
      } else {
        ReceiveKeepsInv(m, es[0]);
      }
      RunAsWrittenKeepsInv(ReceiveAsWritten(m, es[0]), es[1..]);
    }
  }

  /** What any mission driven by telemetry alone does: it never reaches
      DISARMING; it only ever sends the takeoff to 3.0, position commands with
      heading 0.0, the landing and the stop, at most 15 commands in all (so it
      never takes or releases control, arms, disarms or sets home); once
      landing, the twelve box waypoints have been commanded in order, once
      each; and the mission only ends in LANDING, with the stop as its last
      command. */
  lemma MissionFromTelemetry(es: seq<Event>)
    ensures Run(Init(), es).flightState != Disarming
    ensures |Run(Init(), es).commands| <= 15
    ensures forall c :: c in Run(Init(), es).commands ==>
      c == TakeoffTo(TargetAltitude) || (c.CmdPosition? && c.heading == Heading) || c == Land || c == Stop
    ensures Run(Init(), es).flightState == Landing ==>
      |Run(Init(), es).commands| >= 13 && IsBox(Targets(Run(Init(), es).commands[1..13]))
    ensures !Run(Init(), es).inMission ==>
      Run(Init(), es).flightState == Landing && Run(Init(), es).commands[|Run(Init(), es).commands| - 1] == Stop
  {
    RunKeepsInv(Init(), es);
    var r := Run(Init(), es);
    forall c | c in r.commands
      ensures c == TakeoffTo(TargetAltitude) || (c.CmdPosition? && c.heading == Heading) || c == Land || c == Stop
    {
      var i :| 0 <= i < |r.commands| && r.commands[i] == c;
      if r.flightState == Landing && i < 13 {
        assert r.commands[..13][i] == c;
      }
    }
  }

  /** Delivering `a` and then `b` is delivering `a + b`. */
  lemma {:induction false} RunAppend(m: MissionContext, a: seq<Event>, b: seq<Event>)
    ensures Run(m, a + b) == Run(Run(m, a), b)
    decreases |a|
  {
    if a != [] {
      assert (a + b)[1..] == a[1..] + b;
      RunAppend(Receive(m, a[0]), a[1..], b);
    } else {
      assert a + b == b;
    }
  }

  /** A position message reporting the vehicle at waypoint `p` (`p` carries an
      altitude, the message a down coordinate). */
  function ArrivalAt(p: Vec3): Event
  {
    LocalPositionMsg(Vec3(p.x, p.y, -p.z))
  }

  /** One arrival message per waypoint, in order. */
  function Arrivals(ps: seq<Vec3>): (es: seq<Event>)
    ensures |es| == |ps|
    ensures forall i :: 0 <= i < |ps| ==> es[i] == ArrivalAt(ps[i])
  {
    seq(|ps|, i requires 0 <= i < |ps| => ArrivalAt(ps[i]))
  }

  /** The position commands for a sequence of waypoints, in order. */
  function PositionCommands(ps: seq<Vec3>): (cs: seq<Command>)
    ensures |cs| == |ps|
    ensures forall i :: 0 <= i < |ps| ==> cs[i] == PositionCommand(ps[i])
  {
    seq(|ps|, i requires 0 <= i < |ps| => PositionCommand(ps[i]))
  }

  /** A position message stores the position and runs the position callback. */
  lemma ReceivePosition(m: MissionContext, p: Vec3)
    ensures Receive(m, LocalPositionMsg(p)) == LocalPositionCallback(m.(localPosition := p))
  {
  }

  /** A vehicle reported exactly at its target has arrived. This restates
      an ensures of Arrived as a lemma so that callers can bring just this
      fact into the solver's context. */
  lemma ArrivedAtTarget(m: MissionContext)
    requires m.localPosition.x == m.targetPosition.x && m.localPosition.y == m.targetPosition.y
    ensures Arrived(m)
  {
  }

  /** Arriving at the current target with waypoints queued: fly on to the
      next one. */
  lemma ArriveAndFlyOn(m: MissionContext, p: Vec3)
    requires m.flightState == Waypoint && Arrived(m.(localPosition := p)) && |m.allWaypoints| > 0
    ensures Receive(m, LocalPositionMsg(p)) == WaypointTransition(m.(localPosition := p))
  {
  }

  /** A vehicle at rest is moving slowly enough to land. This restates an
      ensures of Settled as a lemma so that callers can bring just this fact
      into the solver's context. */
  lemma AtRestIsSettled(m: MissionContext)
    requires m.localVelocity == Zero
    ensures Settled(m)
  {
  }

  /** Arriving at the last target while moving slowly: land. */
  lemma ArriveAndLand(m: MissionContext, p: Vec3)
    requires m.flightState == Waypoint && Arrived(m.(localPosition := p)) && Settled(m)
    requires m.allWaypoints == []
    ensures Receive(m, LocalPositionMsg(p)) == LandingTransition(m.(localPosition := p))
  {
  }

  /** Delivering one message and then the rest. */
  lemma RunStep(m: MissionContext, e: Event, rest: seq<Event>)
    ensures Run(m, [e] + rest) == Run(Receive(m, e), rest)
  {
    assert ([e] + rest)[1..] == rest;
  }

  /** The arrivals for a first waypoint and the rest. */
  lemma ArrivalsCons(t: Vec3, ws: seq<Vec3>)
    ensures Arrivals([t] + ws) == [ArrivalAt(t)] + Arrivals(ws)
  {
  }

  /** A non-empty sequence is its head followed by its tail. */
  lemma HeadTail<T>(s: seq<T>)
    requires s != []
    ensures [s[0]] + s[1..] == s
  {
  }

  /** The log after commanding the first waypoint and then the rest. */
  lemma PositionCommandsAfter(log: seq<Command>, ws: seq<Vec3>)
    requires ws != []
    ensures log + [PositionCommand(ws[0])] + PositionCommands(ws[1..]) + [Land]
         == log + PositionCommands(ws) + [Land]
  {
    assert PositionCommands(ws) == [PositionCommand(ws[0])] + PositionCommands(ws[1..]);
  }

  /** The vehicle, at rest, reports itself at its current target with
      waypoints still queued: the next one is commanded. */
  lemma FlyOnStep(m: MissionContext, ws: seq<Vec3>)
    requires m.flightState == Waypoint && m.localVelocity == Zero
    requires m.allWaypoints == ws && ws != []
    ensures Run(m, Arrivals([m.targetPosition] + ws))
         == Run(WaypointTransition(m.(localPosition := ArrivalAt(m.targetPosition).position)), Arrivals(ws))
  {
    var t := m.targetPosition;
    var e := ArrivalAt(t);
    var m1 := WaypointTransition(m.(localPosition := e.position));
    assert Receive(m, e) == m1 by {
      ArrivedAtTarget(m.(localPosition := e.position));
      ArriveAndFlyOn(m, e.position);
    }
    ArrivalsCons(t, ws);
    RunStep(m, e, Arrivals(ws));
  }

  /** The vehicle, at rest, reports itself at its last target: it lands,
      and that is the last command. */
  lemma LandStep(m: MissionContext)
    requires m.flightState == Waypoint && m.localVelocity == Zero && m.allWaypoints == []
    ensures Run(m, Arrivals([m.targetPosition] + m.allWaypoints)).flightState == Landing
    ensures Run(m, Arrivals([m.targetPosition] + m.allWaypoints)).allWaypoints == []
    ensures Run(m, Arrivals([m.targetPosition] + m.allWaypoints)).inMission == m.inMission
    ensures Run(m, Arrivals([m.targetPosition] + m.allWaypoints)).commands ==
      m.commands + PositionCommands(m.allWaypoints) + [Land]
  {
    var t := m.targetPosition;
    var e := ArrivalAt(t);
    var m1 := LandingTransition(m.(localPosition := e.position));
    assert Receive(m, e) == m1 by {
      ArrivedAtTarget(m.(localPosition := e.position));
      AtRestIsSettled(m);
      ArriveAndLand(m, e.position);
    }
    assert Run(m, Arrivals([t] + m.allWaypoints)) == m1 by {
      ArrivalsCons(t, []);
      RunStep(m, e, []);
    }
    assert PositionCommands(m.allWaypoints) == [];
    AppendEmpty(m.commands, PositionCommands(m.allWaypoints), [Land]);
  }

  /** Appending an empty middle part changes nothing. */
  lemma AppendEmpty<T>(a: seq<T>, b: seq<T>, c: seq<T>)
    requires b == []
    ensures a + b + c == a + c
  {
    assert a + b == a;
  }

  /** After flying on to the next waypoint, the log still to come is the rest
      of the queue and the landing. */
  lemma FlyOnLog(m: MissionContext)
    requires m.flightState == Waypoint && m.allWaypoints != []
    ensures var m1 := WaypointTransition(m.(localPosition := ArrivalAt(m.targetPosition).position));
      m1.commands + PositionCommands(m1.allWaypoints) + [Land]
      == m.commands + PositionCommands(m.allWaypoints) + [Land]
  {
    PositionCommandsAfter(m.commands, m.allWaypoints);
  }

  /** Flying the box to the end: if the vehicle, standing still, reports
      itself at the current target and then at each queued waypoint in turn,
      the mission commands exactly the queued waypoints, in order, and then
      lands. */
  lemma {:induction false} ArrivalsLand(m: MissionContext)
    requires m.flightState == Waypoint && m.localVelocity == Zero
    ensures Run(m, Arrivals([m.targetPosition] + m.allWaypoints)).flightState == Landing
    ensures Run(m, Arrivals([m.targetPosition] + m.allWaypoints)).allWaypoints == []
    ensures Run(m, Arrivals([m.targetPosition] + m.allWaypoints)).inMission == m.inMission
    ensures Run(m, Arrivals([m.targetPosition] + m.allWaypoints)).commands ==
      m.commands + PositionCommands(m.allWaypoints) + [Land]
    decreases |m.allWaypoints|
  {
    if m.allWaypoints == [] {
      LandStep(m);
    } else {
      var m1 := WaypointTransition(m.(localPosition := ArrivalAt(m.targetPosition).position));
      assert Run(m, Arrivals([m.targetPosition] + m.allWaypoints))
          == Run(m1, Arrivals([m1.targetPosition] + m1.allWaypoints)) by {
        FlyOnStep(m, m.allWaypoints);
        HeadTail(m.allWaypoints);
      }
      ArrivalsLand(m1);
      FlyOnLog(m);
    }
  }

  /** Box of the reference mission: generated at the origin, 3.0 up. */
  const ReferenceClimb: Vec3 := Vec3(0.0, 0.0, -3.0)

  /** The messages of the reference mission: guided, armed, climbed to 3.0,
      arrived at each of the twelve box waypoints in turn, then disengaged. */
  function ReferenceEvents(): seq<Event>
  {
    [StateMsg(false, true), StateMsg(true, true), LocalPositionMsg(ReferenceClimb)]
      + Arrivals(CalculateBox(ReferenceClimb)) + [StateMsg(false, false)]
  }

  /** The context of the reference mission once guided and armed. */
  function ReferenceArmed(): MissionContext
  {
    Init().(flightState := Takeoff, targetPosition := Vec3(0.0, 0.0, TargetAltitude),
            armed := true, guided := true, commands := [TakeoffTo(TargetAltitude)])
  }

  lemma ReferenceGuidedArmed()
    ensures Run(Init(), [StateMsg(false, true), StateMsg(true, true)]) == ReferenceArmed()
  {
    var m1 := Receive(Init(), StateMsg(false, true));
    assert m1 == Init().(flightState := Arming, guided := true);
    RunStep(Init(), StateMsg(false, true), [StateMsg(true, true)]);
    RunStep(m1, StateMsg(true, true), []);
  }

  lemma ReferenceClimbed()
    ensures var m := Receive(ReferenceArmed(), LocalPositionMsg(ReferenceClimb));
      && m.flightState == Waypoint && m.inMission && m.localVelocity == Zero
      && m.targetPosition == CalculateBox(ReferenceClimb)[0]
      && m.allWaypoints == CalculateBox(ReferenceClimb)[1..]
      && m.commands == [TakeoffTo(TargetAltitude), PositionCommand(CalculateBox(ReferenceClimb)[0])]
  {
    var m := ReferenceArmed().(localPosition := ReferenceClimb);
    ReceivePosition(ReferenceArmed(), ReferenceClimb);
    assert m.flightState == Takeoff && Climbed(m);
  }

  /** The first three messages of the reference mission: guided, armed,
      climbed. The vehicle is flying to the first box waypoint. */
  lemma ReferenceTakeoff()
    ensures var m := Run(Init(), [StateMsg(false, true), StateMsg(true, true), LocalPositionMsg(ReferenceClimb)]);
      && m.flightState == Waypoint && m.inMission && m.localVelocity == Zero
      && m.targetPosition == CalculateBox(ReferenceClimb)[0]
      && m.allWaypoints == CalculateBox(ReferenceClimb)[1..]
      && m.commands == [TakeoffTo(TargetAltitude), PositionCommand(CalculateBox(ReferenceClimb)[0])]
  {
    ReferenceGuidedArmed();
    ReferenceClimbed();
    RunAppend(Init(), [StateMsg(false, true), StateMsg(true, true)], [LocalPositionMsg(ReferenceClimb)]);
    RunStep(ReferenceArmed(), LocalPositionMsg(ReferenceClimb), []);
    assert [StateMsg(false, true), StateMsg(true, true)] + [LocalPositionMsg(ReferenceClimb)]
        == [StateMsg(false, true), StateMsg(true, true), LocalPositionMsg(ReferenceClimb)];
  }

  /** The end of the reference mission: disengaged while landing, the
      mission stops. */
  lemma ReferenceStop(m: MissionContext)
    requires m.flightState == Landing && m.inMission
    ensures Run(m, [StateMsg(false, false)]).flightState == Landing
    ensures !Run(m, [StateMsg(false, false)]).inMission
    ensures Run(m, [StateMsg(false, false)]).commands == m.commands + [Stop]
  {
    RunStep(m, StateMsg(false, false), []);
  }

  /** The reference mission ends LANDING and out of mission, having sent the
      takeoff to 3.0, the twelve box waypoints in order, the landing and the
      stop, and nothing else; the first waypoint is 5.0 north of the climb
      point at altitude 6.0, three above the climb. */
  lemma ReferenceMission()
    ensures Run(Init(), ReferenceEvents()).flightState == Landing
    ensures !Run(Init(), ReferenceEvents()).inMission
    ensures Run(Init(), ReferenceEvents()).commands ==
      [TakeoffTo(TargetAltitude)] + PositionCommands(CalculateBox(ReferenceClimb)) + [Land, Stop]
    ensures CalculateBox(ReferenceClimb)[0] == Vec3(5.0, 0.0, 6.0)
  {
    var box := CalculateBox(ReferenceClimb);
    var start := [StateMsg(false, true), StateMsg(true, true), LocalPositionMsg(ReferenceClimb)];
    var m3 := Run(Init(), start);
    ReferenceTakeoff();
    HeadTail(box);
    ArrivalsLand(m3);
    var m15 := Run(m3, Arrivals(box));
    ReferenceStop(m15);
    RunThree(Init(), start, Arrivals(box), [StateMsg(false, false)]);
    ReferenceLog(box);
    ReferenceFirstWaypoint();
  }

  /** The first waypoint of the reference box. A step of ReferenceMission,
      proved apart to keep that lemma's context small. */
  lemma ReferenceFirstWaypoint()
    ensures CalculateBox(ReferenceClimb)[0] == Vec3(5.0, 0.0, 6.0)
  {
    assert Reference(ReferenceClimb) == Vec3(0.0, 0.0, 3.0);
    assert Add(Vec3(0.0, 0.0, 3.0), Vec3(5.0, 0.0, 3.0)) == Vec3(5.0, 0.0, 6.0);
  }

  /** Delivering three runs of messages one after the other. */
  lemma RunThree(m: MissionContext, a: seq<Event>, b: seq<Event>, c: seq<Event>)
    ensures Run(m, a + b + c) == Run(Run(Run(m, a), b), c)
  {
    RunAppend(m, a + b, c);
    RunAppend(m, a, b);
  }

  /** The command log of the reference mission, regrouped. */
  lemma ReferenceLog(box: seq<Vec3>)
    requires box != []
    ensures [TakeoffTo(TargetAltitude), PositionCommand(box[0])] + PositionCommands(box[1..]) + [Land] + [Stop]
         == [TakeoffTo(TargetAltitude)] + PositionCommands(box) + [Land, Stop]
  {
    PositionCommandsAfter([TakeoffTo(TargetAltitude)], box);
    assert [TakeoffTo(TargetAltitude), PositionCommand(box[0])]
        == [TakeoffTo(TargetAltitude)] + [PositionCommand(box[0])];
  }

  /** A context the mission has finished with: out of mission and in no state
      that reacts to position messages. */
  predicate Inert(m: MissionContext)
  {
    !m.inMission && m.flightState != Takeoff && m.flightState != Waypoint
  }

  /** The mission's own fields and command log agree. */
  predicate SameControl(a: MissionContext, b: MissionContext)
  {
    && a.flightState == b.flightState && a.targetPosition == b.targetPosition
    && a.allWaypoints == b.allWaypoints && a.inMission == b.inMission
    && a.commands == b.commands
  }

  /** Once inert, no sequence of messages changes anything but telemetry. */
  lemma {:induction false} InertStaysInert(m: MissionContext, es: seq<Event>)
    requires Inert(m)
    ensures SameControl(Run(m, es), m)
    decreases |es|
  {
    if es != [] {
      var m' := Receive(m, es[0]);
      assert SameControl(m', m);
      InertStaysInert(m', es[1..]);
    }
  }

  /** After `manual_transition`, from any state, the mission is over: every
      later message leaves it in MANUAL, out of mission, with release-control
      and stop as the last commands sent. */
  lemma ManualTransitionEndsMission(m: MissionContext, es: seq<Event>)
    ensures Run(ManualTransition(m), es).flightState == Manual
    ensures !Run(ManualTransition(m), es).inMission
    ensures Run(ManualTransition(m), es).commands == m.commands + [ReleaseControl, Stop]
  {
    InertStaysInert(ManualTransition(m), es);
  }

  /** After the stop that ends a mission, every later message changes nothing
      but telemetry: the flight state stays LANDING and no command is sent. */
  lemma StopEndsMission(m: MissionContext, es: seq<Event>)
    requires Inv(m) && !m.inMission
    ensures Run(m, es).flightState == Landing
    ensures Run(m, es).commands == m.commands
  {
    InertStaysInert(m, es);
  }
}
