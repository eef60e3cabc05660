/** With everybody delivered a car keeps its door shut and patrols the building,
    from end to end and back, until the program stops. */
module ElevatorSweep {
  import opened Elevator
  import opened Census
  import opened ElevatorSafety
  import opened ElevatorDelivery

  /** Moves in one round trip of the building. */
  function RoundTrip(cfg: Config): (moves: nat)
    requires Sensible(cfg)
    ensures moves > 0
  {
    2 * (cfg.floors - 1)
  }

  /** How far into a round trip from the ground floor a car is. At the end floors the
      direction is about to be turned, so it does not matter there. */
  function Phase(cfg: Config, floor: int, direction: int): nat
    requires Sensible(cfg) && IsFloor(cfg, floor)
  {
    if floor == 0 then 0
    else if floor == cfg.floors - 1 || direction == 1 then floor
    else RoundTrip(cfg) - floor
  }

  /** The floor at a given point of a round trip. */
  function FloorAt(cfg: Config, phase: nat): int
    requires Sensible(cfg)
  {
    if phase < cfg.floors then phase else RoundTrip(cfg) - phase
  }

  /** One move further on. */
  function NextPhase(cfg: Config, phase: nat): nat
    requires Sensible(cfg)
  {
    if phase + 1 == RoundTrip(cfg) then 0 else phase + 1
  }

  function PhaseAfter(cfg: Config, phase: nat, moves: nat): nat
    requires Sensible(cfg)
    decreases moves
  {
    if moves == 0 then phase else PhaseAfter(cfg, NextPhase(cfg, phase), moves - 1)
  }

  lemma {:induction false} PhaseAfterIs(cfg: Config, phase: nat, moves: nat)
    requires Sensible(cfg) && phase < RoundTrip(cfg) && moves <= RoundTrip(cfg)
    ensures PhaseAfter(cfg, phase, moves)
         == if phase + moves < RoundTrip(cfg) then phase + moves else phase + moves - RoundTrip(cfg)
    decreases moves
  {
    if moves > 0 {
      PhaseAfterIs(cfg, NextPhase(cfg, phase), moves - 1);
    }
  }

  lemma PhaseFirst(cfg: Config, phase: nat, next: nat, first: bool, rest: nat, moves: nat)
    requires Sensible(cfg) && next == PhaseAfter(cfg, phase, One(first)) && moves == One(first) + rest
    ensures PhaseAfter(cfg, phase, moves) == PhaseAfter(cfg, next, rest)
  {
  }

  lemma PhaseTellsFloor(cfg: Config, floor: int, direction: int)
    requires Sensible(cfg) && IsFloor(cfg, floor) && (direction == 1 || direction == -1)
    ensures Phase(cfg, floor, direction) < RoundTrip(cfg)
    ensures FloorAt(cfg, Phase(cfg, floor, direction)) == floor
  {
  }

  /** Nothing is asked for, nobody is served and the door is shut. */
  ghost predicate Patrolling(cfg: Config, s: State, e: nat) {
    && Underway(cfg, s, e) && CallsLeft(cfg, s, e) == 0
    && Asked(s.cars[e], s.passengers, e) == []
    && (Outside(s.cars[e].pc) || Planning(s.cars[e].pc) || Moving(s.cars[e].pc))
  }

  function PhaseOf(cfg: Config, s: State, e: nat): nat
    requires Sensible(cfg)
  {
    if e < |s.cars| && IsFloor(cfg, s.cars[e].refFloor) then Phase(cfg, s.cars[e].refFloor, s.cars[e].direction) else 0
  }

  /** The turn moves car `e` by a floor. */
  predicate MovesCar(s: State, a: Action, e: nat) {
    a == ElevatorTurn(e) && e < |s.cars| && s.cars[e].pc.MoveAct?
  }

  lemma PatrolPlans(cfg: Config, e: nat, c: Car, xs: seq<Passenger>)
    requires Sensible(cfg) && CarOk(cfg, c) && OnCourse(c, e, xs) && Asked(c, xs, e) == [] && Planning(c.pc)
    ensures var r := PlanStep(cfg, e, c, xs);
      r.Go? ==>
        && r.next.riding == c.riding && (Planning(r.next.pc) || Moving(r.next.pc))
        && r.next.refFloor == c.refFloor
        && Phase(cfg, c.refFloor, r.next.direction) == Phase(cfg, c.refFloor, c.direction)
  {
    if c.pc.Gate? || c.pc.ScanRiders? || c.pc.ScanWaiters? {
    } else {
    }
  }

  lemma PatrolMoves(cfg: Config, e: nat, c: Car)
    requires Sensible(cfg) && CarOk(cfg, c) && Moving(c.pc)
    requires IsFloor(cfg, c.refFloor + c.direction) || !c.pc.MoveAct?
    ensures var r := MoveStep(cfg, e, c);
      r.Go? ==>
        && r.next.riding == c.riding && (Outside(r.next.pc) || Moving(r.next.pc))
        && IsFloor(cfg, r.next.refFloor)
        && Phase(cfg, r.next.refFloor, r.next.direction)
           == PhaseAfter(cfg, Phase(cfg, c.refFloor, c.direction), One(c.pc.MoveAct?))
  {
    if c.pc.MoveAct? {
      var phase := Phase(cfg, c.refFloor, c.direction);
      assert PhaseAfter(cfg, phase, 1) == NextPhase(cfg, phase);
    }
  }

  lemma PatrolStep(cfg: Config, e: nat, c: Car, xs: seq<Passenger>, stop: bool)
    requires Sensible(cfg) && CarOk(cfg, c) && OnCourse(c, e, xs) && Asked(c, xs, e) == []
    requires Outside(c.pc) || Planning(c.pc) || Moving(c.pc)
    ensures var r := ElevatorStep(cfg, e, c, xs, stop);
      r.Go? ==>
        && r.next.riding == c.riding && (Outside(r.next.pc) || Planning(r.next.pc) || Moving(r.next.pc))
        && IsFloor(cfg, r.next.refFloor)
        && Phase(cfg, r.next.refFloor, r.next.direction)
           == PhaseAfter(cfg, Phase(cfg, c.refFloor, c.direction), One(c.pc.MoveAct?))
  {
    if Planning(c.pc) {
      PatrolPlans(cfg, e, c, xs);
    } else if Moving(c.pc) {
      PatrolMoves(cfg, e, c);
    }
  }

  lemma PatrolElevatorTurn(cfg: Config, s: State, e: nat)
    requires Patrolling(cfg, s, e)
    ensures var t := Apply(cfg, s, ElevatorTurn(e));
      && |t.cars| == CARS && t.passengers == s.passengers
      && Asked(t.cars[e], t.passengers, e) == []
      && (Outside(t.cars[e].pc) || Planning(t.cars[e].pc) || Moving(t.cars[e].pc))
      && IsFloor(cfg, t.cars[e].refFloor)
      && PhaseOf(cfg, t, e) == PhaseAfter(cfg, PhaseOf(cfg, s, e), One(s.cars[e].pc.MoveAct?))
  {
    PatrolStep(cfg, e, s.cars[e], s.passengers, s.stop);
    TallyConsistent(s.passengers, e);
    ElevatorStepOk(cfg, e, s.cars[e], TallyOf(s.passengers, e), s.passengers, s.stop);
  }

  lemma PatrolTurn(cfg: Config, s: State, a: Action, e: nat)
    requires Patrolling(cfg, s, e)
    ensures var t := Apply(cfg, s, a);
      && Patrolling(cfg, t, e)
      && PhaseOf(cfg, t, e) == PhaseAfter(cfg, PhaseOf(cfg, s, e), One(MovesCar(s, a, e)))
  {
    Turn(cfg, s, a, e);
    match a
    case PassengerTurn(p, pick) =>
      NothingLeft(cfg, s, e);
      if p < |s.passengers| {
        PatrolPassengerTurn(cfg, s, p, pick, e);
      }
    case ElevatorTurn(d) =>
      if d == e {
        PatrolElevatorTurn(cfg, s, e);
      }
    case MainStops =>
  }

  lemma PatrolPassengerTurn(cfg: Config, s: State, p: nat, pick: nat, e: nat)
    requires Patrolling(cfg, s, e) && Delivered(s, e) && p < |s.passengers|
    ensures var t := Apply(cfg, s, PassengerTurn(p, pick));
      |t.cars| == CARS && t.cars[e] == s.cars[e] && Asked(t.cars[e], t.passengers, e) == []
  {
    var xs := s.passengers;
    var r := PassengerStep(cfg, p, xs[p], s.cars[CarOf(p)], s.stop, pick);
    PassengerTurnKeepsSettled(cfg, s, p, pick, e);
    if r.Go? {
      if CarOf(p) == e {
        assert SettledFor(p, xs[p], e);
        IdleStep(cfg, p, xs[p], s.cars[e], s.stop, pick);
      } else {
        assert ListOk(e, s.cars[e].riding, |xs|);
      }
      AskedFrame(s.cars[e], xs, p, r.next.0, e);
    }
  }

  /** Moves of car `e` during a run. */
  function Moves(cfg: Config, s: State, schedule: seq<Action>, e: nat): nat
    decreases |schedule|
  {
    if schedule == [] then 0
    else One(MovesCar(s, schedule[0], e)) + Moves(cfg, Apply(cfg, s, schedule[0]), schedule[1..], e)
  }

  lemma {:induction false} StaysPatrolling(cfg: Config, s: State, schedule: seq<Action>, e: nat)
    requires Patrolling(cfg, s, e)
    ensures Patrolling(cfg, Run(cfg, s, schedule), e)
    decreases |schedule|
  {
    if schedule != [] {
      PatrolTurn(cfg, s, schedule[0], e);
      StaysPatrolling(cfg, Apply(cfg, s, schedule[0]), schedule[1..], e);
    }
  }

  /** Each turn of the run takes the phase on by the move it makes, if it makes one. */
  predicate PhasesFollow(cfg: Config, s: State, schedule: seq<Action>, e: nat)
    requires Sensible(cfg)
    decreases |schedule|
  {
    schedule != [] ==>
      && PhaseOf(cfg, Apply(cfg, s, schedule[0]), e)
         == PhaseAfter(cfg, PhaseOf(cfg, s, e), One(MovesCar(s, schedule[0], e)))
      && PhasesFollow(cfg, Apply(cfg, s, schedule[0]), schedule[1..], e)
  }

  lemma {:induction false} PatrolFollows(cfg: Config, s: State, schedule: seq<Action>, e: nat)
    requires Patrolling(cfg, s, e)
    ensures PhasesFollow(cfg, s, schedule, e)
    decreases |schedule|
  {
    if schedule != [] {
      PatrolTurn(cfg, s, schedule[0], e);
      PatrolFollows(cfg, Apply(cfg, s, schedule[0]), schedule[1..], e);
    }
  }

  lemma FirstFollows(cfg: Config, s: State, schedule: seq<Action>, e: nat) returns (t: State, moved: bool)
    requires Sensible(cfg) && PhasesFollow(cfg, s, schedule, e) && schedule != []
    ensures PhasesFollow(cfg, t, schedule[1..], e)
    ensures PhaseOf(cfg, t, e) == PhaseAfter(cfg, PhaseOf(cfg, s, e), One(moved))
    ensures Run(cfg, s, schedule) == Run(cfg, t, schedule[1..])
    ensures Moves(cfg, s, schedule, e) == One(moved) + Moves(cfg, t, schedule[1..], e)
  {
    t, moved := Apply(cfg, s, schedule[0]), MovesCar(s, schedule[0], e);
  }

  lemma {:induction false} PhaseOfRun(cfg: Config, s: State, schedule: seq<Action>, e: nat)
    requires Sensible(cfg) && PhasesFollow(cfg, s, schedule, e)
    ensures PhaseOf(cfg, Run(cfg, s, schedule), e) == PhaseAfter(cfg, PhaseOf(cfg, s, e), Moves(cfg, s, schedule, e))
    decreases |schedule|
  {
    if schedule != [] {
      var t, moved := FirstFollows(cfg, s, schedule, e);
      PhaseOfRun(cfg, t, schedule[1..], e);
      PhaseFirst(cfg, PhaseOf(cfg, s, e), PhaseOf(cfg, t, e), moved, Moves(cfg, t, schedule[1..], e),
                 Moves(cfg, s, schedule, e));
    }
  }

  /** Where a patrolling car is depends on the number of its moves alone. */
  lemma PatrolRun(cfg: Config, s: State, schedule: seq<Action>, e: nat)
    requires Patrolling(cfg, s, e)
    ensures PhaseOf(cfg, Run(cfg, s, schedule), e) == PhaseAfter(cfg, PhaseOf(cfg, s, e), Moves(cfg, s, schedule, e))
  {
    PatrolFollows(cfg, s, schedule, e);
    PhaseOfRun(cfg, s, schedule, e);
  }

  lemma PhaseOfTellsFloor(cfg: Config, s: State, e: nat)
    requires Patrolling(cfg, s, e)
    ensures PhaseOf(cfg, s, e) < RoundTrip(cfg) && FloorAt(cfg, PhaseOf(cfg, s, e)) == s.cars[e].refFloor
    ensures !s.cars[e].open
  {
    PhaseTellsFloor(cfg, s.cars[e].refFloor, s.cars[e].direction);
  }

  // ---------------------------------------------------------------- everybody delivered

  /** All passengers of the car have registered for their last trip and have been
      delivered, and the car is between two calls. */
  ghost predicate Done(cfg: Config, s: State, e: nat) {
    && Sensible(cfg) && cfg.trips > 0 && Reachable(cfg, s) && e < CARS && RegisteredFor(s, e)
    && Delivered(s, e) && |s.cars| == CARS && BetweenCalls(s.cars[e].pc)
  }

  lemma DeliveredNeedNothing(cfg: Config, s: State, e: nat)
    requires Underway(cfg, s, e) && Delivered(s, e)
    ensures CallsLeft(cfg, s, e) == 0 && Total(Listed, s.passengers, e) == 0
  {
    NobodyCounts(Owed, s.passengers, e, |s.passengers|);
    NobodyCounts(Holding, s.passengers, e, |s.passengers|);
    NobodyCounts(Listed, s.passengers, e, |s.passengers|);
  }

  /** With everybody delivered the car is asked for nothing any more. */
  lemma DeliveredPatrols(cfg: Config, s: State, e: nat)
    requires Done(cfg, s, e)
    ensures Patrolling(cfg, s, e)
  {
    var c, xs := s.cars[e], s.passengers;
    RegisteredIsComplete(cfg, s, e);
    OnCourseFromCall(cfg, s, e);
    DeliveredNeedNothing(cfg, s, e);
    assert CountsOk(c, TallyOf(xs, e));
    WaiterFloorsMembers(cfg, xs, e, |xs|);
    assert forall p | 0 <= p < |xs| :: SettledFor(p, xs[p], e);
  }

  /** Its door stays shut in every run. */
  lemma DoorStaysShut(cfg: Config, s: State, schedule: seq<Action>, e: nat)
    requires Done(cfg, s, e)
    ensures |Run(cfg, s, schedule).cars| == CARS && !Run(cfg, s, schedule).cars[e].open
  {
    DeliveredPatrols(cfg, s, e);
    StaysPatrolling(cfg, s, schedule, e);
    PhaseOfTellsFloor(cfg, Run(cfg, s, schedule), e);
  }

  /** The point of its round trip is further on by the number of its moves, and tells the
      floor it is on. */
  lemma Patrol(cfg: Config, s: State, schedule: seq<Action>, e: nat)
    requires Done(cfg, s, e)
    ensures var t := Run(cfg, s, schedule);
      && |t.cars| == CARS && PhaseOf(cfg, t, e) == PhaseAfter(cfg, PhaseOf(cfg, s, e), Moves(cfg, s, schedule, e))
      && t.cars[e].refFloor == FloorAt(cfg, PhaseOf(cfg, t, e))
  {
    DeliveredPatrols(cfg, s, e);
    StaysPatrolling(cfg, s, schedule, e);
    PatrolRun(cfg, s, schedule, e);
    PhaseOfTellsFloor(cfg, Run(cfg, s, schedule), e);
  }

  /** A round trip brings the car back to the same floor. */
  lemma SameFloorAfterRoundTrip(cfg: Config, s: State, schedule: seq<Action>, e: nat)
    requires Done(cfg, s, e) && Moves(cfg, s, schedule, e) == RoundTrip(cfg)
    ensures |Run(cfg, s, schedule).cars| == CARS
    ensures Run(cfg, s, schedule).cars[e].refFloor == s.cars[e].refFloor
  {
    Patrol(cfg, s, schedule, e);
    DeliveredPatrols(cfg, s, e);
    PhaseOfTellsFloor(cfg, s, e);
    PhaseAfterIs(cfg, PhaseOf(cfg, s, e), RoundTrip(cfg));
  }

  /** On the way it visits every floor. */
  lemma EveryFloorIsVisited(cfg: Config, s: State, e: nat, floor: nat) returns (moves: nat)
    requires Done(cfg, s, e) && IsFloor(cfg, floor)
    ensures moves < RoundTrip(cfg)
    ensures forall schedule: seq<Action> | Moves(cfg, s, schedule, e) == moves ::
              |Run(cfg, s, schedule).cars| == CARS && Run(cfg, s, schedule).cars[e].refFloor == floor
  {
    var now := PhaseOf(cfg, s, e);
    DeliveredPatrols(cfg, s, e);
    PhaseOfTellsFloor(cfg, s, e);
    moves := if floor >= now then floor - now else floor + RoundTrip(cfg) - now;
    PhaseAfterIs(cfg, now, moves);
    forall schedule: seq<Action> | Moves(cfg, s, schedule, e) == moves
      ensures |Run(cfg, s, schedule).cars| == CARS && Run(cfg, s, schedule).cars[e].refFloor == floor
    {
      Patrol(cfg, s, schedule, e);
    }
  }
}
