/** The building of one floor, and with it exactly when the referee finds nothing to
    object to: the first car to make a call leaves such a building. */
module ElevatorOneFloor {
  import opened NearestTarget
  import opened Elevator
  import opened ElevatorSafety
  import opened ElevatorDelivery
  import opened ElevatorStarts
  import opened ElevatorRuns

  // ---------------------------------------------------------------- no car ever starts

  /** Every car is before its gate and nobody has got past the wait for a car. */
  ghost predicate AtRest(cfg: Config, s: State) {
    Orderly(cfg, s) && s.ended == None && forall e | 0 <= e < CARS :: NotStarted(cfg, s, e)
  }

  lemma RestingTurn(cfg: Config, s: State, a: Action)
    requires AtRest(cfg, s) && forall e | 0 <= e < CARS :: MostStarts(cfg, e) < 3
    ensures AtRest(cfg, Apply(cfg, s, a))
  {
    OrderlyTurn(cfg, s, a);
    forall e | 0 <= e < CARS
      ensures NotStarted(cfg, Apply(cfg, s, a), e)
    {
      NotStartedTurn(cfg, s, a, e);
    }
    match a
    case PassengerTurn(p, pick) => if p < |s.passengers| { RestingPassengerTurn(cfg, s, p, pick); }
    case ElevatorTurn(e) => if e < CARS { RestingElevatorTurn(cfg, s, e); }
    case MainStops =>
  }

  lemma {:induction false} RestingRun(cfg: Config, s: State, schedule: seq<Action>)
    requires AtRest(cfg, s) && forall e | 0 <= e < CARS :: MostStarts(cfg, e) < 3
    ensures AtRest(cfg, Run(cfg, s, schedule))
    decreases |schedule|
  {
    if schedule != [] {
      RestingTurn(cfg, s, schedule[0]);
      RestingRun(cfg, Apply(cfg, s, schedule[0]), schedule[1..]);
    }
  }

  // ---------------------------------------------------------------- the way out of the building

  /** In its next call it turns to the rider's destination below. */
  lemma LooksBack(cfg: Config, c: Car, xs: seq<Passenger>)
    requires cfg.floors == 1 && c.pc.Top? && c.refFloor == 1 && c.direction == 1 && c.start >= 3
    requires c.riding == [0] && xs != [] && xs[0].to == 0
    ensures CarRun(cfg, 0, c, xs, 4) == Go(c.(pc := SteerUp, at := 1, i := 0, closest := 0, waitAt := 0))
  {
    var scan := c.(pc := ScanRiders, at := 1, i := 0, closest := 0);
    FourTurns(cfg, 0, c, xs, c.(pc := Gate, at := 1), scan, scan.(pc := SetTarget), scan.(pc := SteerUp, waitAt := 0));
  }

  /** And wants to move. */
  lemma WantsBack(cfg: Config, c: Car, xs: seq<Passenger>)
    requires c.pc.SteerUp? && c.at == 1 && c.waitAt == 0 && c.direction == 1
    ensures CarRun(cfg, 0, c, xs, 3) == Go(c.(pc := MoveCheck1, direction := -1))
  {
    var back := c.(pc := Decide, direction := -1);
    ThreeTurns(cfg, 0, c, xs, c.(pc := SteerDown), back, back.(pc := MoveCheck1));
  }

  // ---------------------------------------------------------------- such a run exists

  /** Everybody has registered, or has not begun. */
  ghost predicate HaveRegistered(cfg: Config, xs: seq<Passenger>)
    requires cfg.trips > 0
  {
    forall p | 0 <= p < |xs| :: xs[p] == Newcomer(cfg, 0) || xs[p] == AfterRegistration(p, Newcomer(cfg, 0))
  }

  /** Passengers 0, 4 and 8 wait for car 0, the others have not begun. */
  lemma ThreeRegister(cfg: Config) returns (s: State)
    requires cfg.floors == 1 && cfg.trips > 0 && cfg.passengers >= 9
    ensures Reachable(cfg, s) && |s.cars| == CARS && |s.passengers| == cfg.passengers && s.ended == None && !s.stop
    ensures s.cars[0] == RESTING_CAR.(waitAt := 0, start := 3)
    ensures HaveRegistered(cfg, s.passengers) && s.passengers[0] == AfterRegistration(0, Newcomer(cfg, 0))
  {
    var s0 := State(seq(CARS, _ => RESTING_CAR), seq(cfg.passengers, _ => Newcomer(cfg, 0)), false, None);
    assert Initial(cfg, s0) && s0 == Run(cfg, s0, []);
    RegistersFurther(cfg, s0, 0);
    var x := Newcomer(cfg, 0);
    var s1 := s0.(passengers := s0.passengers[0 := AfterRegistration(0, x)],
                  cars := s0.cars[0 := RESTING_CAR.(waitAt := 0, start := 1)]);
    RegistersFurther(cfg, s1, 4);
    var s2 := s1.(passengers := s1.passengers[4 := AfterRegistration(4, x)],
                  cars := s1.cars[0 := RESTING_CAR.(waitAt := 0, start := 2)]);
    RegistersFurther(cfg, s2, 8);
    s := s2.(passengers := s2.passengers[8 := AfterRegistration(8, x)],
             cars := s2.cars[0 := RESTING_CAR.(waitAt := 0, start := 3)]);
  }

  lemma NearestIsZero(cfg: Config, xs: seq<Passenger>)
    requires cfg.floors == 1 && xs != [] && AsksFor(xs[0], 0)
    requires forall p | 0 <= p < |xs| :: PassengerOk(cfg, p, xs[p])
    ensures NearestOrNone(WaiterFloors(xs, 0, |xs|), 0) == 0
  {
    WaiterFloorsHas(xs, 0, |xs|, 0);
    WaiterFloorsMembers(cfg, xs, 0, |xs|);
    NearestIsLeast(WaiterFloors(xs, 0, |xs|), 0);
  }

  /** Everybody is taken to wait for car 0 on floor 0, so that is where it opens. */
  lemma DoorOpens(cfg: Config, s: State) returns (t: State)
    requires cfg.floors == 1 && cfg.trips > 0 && cfg.passengers > 0 && Live(cfg, s)
    requires s.cars[0] == RESTING_CAR.(waitAt := 0, start := 3)
    requires HaveRegistered(cfg, s.passengers) && AsksFor(s.passengers[0], 0)
    ensures Live(cfg, t) && t.passengers == s.passengers
    ensures Serves(t.cars[0], 0, [], 1) && t.cars[0].start == 3
  {
    var xs := s.passengers;
    assert forall p | 0 <= p < |xs| :: PassengerOk(cfg, p, xs[p]);
    NearestIsZero(cfg, xs);
    t := OpensHere(cfg, s, 0, 0, []);
  }

  lemma WantsBackFrom(cfg: Config, s: State) returns (t: State)
    requires cfg.floors == 1 && Live(cfg, s) && cfg.passengers > 0 && s.passengers[0].to == 0
    requires var c := s.cars[0];
      c.pc.Top? && c.refFloor == 1 && c.direction == 1 && c.start >= 3 && !c.open && c.riding == [0] && c.aboard == 1
    ensures Live(cfg, t)
    ensures var c := t.cars[0]; c.pc.MoveCheck1? && c.refFloor == 1 && !c.open && c.aboard == 1
  {
    var c := s.cars[0];
    var steer := c.(pc := SteerUp, at := 1, i := 0, closest := 0, waitAt := 0);
    LooksBack(cfg, c, s.passengers);
    var u := Drives(cfg, s, 0, 4, steer);
    WantsBack(cfg, steer, s.passengers);
    t := Drives(cfg, u, 0, 3, steer.(pc := MoveCheck1, direction := -1));
  }

  lemma IsCaught(cfg: Config, s: State) returns (t: State)
    requires cfg.floors == 1 && Live(cfg, s)
    requires var c := s.cars[0]; c.pc.MoveCheck1? && c.refFloor == 1 && !c.open && c.aboard == 1
    ensures Reachable(cfg, t) && t.ended == Some(MoveOutsideBuilding)
  {
    FirstTurn(cfg, s, ElevatorTurn(0), []);
    ReachableFurther(cfg, s, [ElevatorTurn(0)] + []);
    t := Apply(cfg, s, ElevatorTurn(0));
  }

  /** With one floor, and passengers enough for one car to start, a violation can be
      reached: the car moves out of the building. */
  lemma OneFloorViolates(cfg: Config) returns (s: State)
    requires cfg.floors == 1 && cfg.trips > 0 && cfg.passengers >= 9
    ensures Reachable(cfg, s) && s.ended == Some(MoveOutsideBuilding)
  {
    s := ThreeRegister(cfg);
    s := DoorOpens(cfg, s);
    s := LetsIn(cfg, s, 0, 0, [], 1);
    s := Leaves(cfg, s, 0);
    s := WantsBackFrom(cfg, s);
    s := IsCaught(cfg, s);
  }

  // ---------------------------------------------------------------- the exact condition

  /** Violations are unreachable exactly if there is more than one floor, or no floor, or
      no car has passengers enough to make its first call. */
  lemma SafeExactlyWhen(cfg: Config)
    ensures (forall s :: Reachable(cfg, s) ==> s.ended == None)
       <==> cfg.floors != 1 || cfg.trips == 0 || PassengersOf(0, cfg.passengers) < 3
  {
    PassengersOfIs(0, cfg.passengers);
    if cfg.floors == 1 && cfg.trips > 0 && PassengersOf(0, cfg.passengers) >= 3 {
      var s := OneFloorViolates(cfg);
    } else {
      forall s | Reachable(cfg, s)
        ensures s.ended == None
      {
        if Sensible(cfg) {
          NoViolation(cfg, s);
        } else {
          SafeAtRest(cfg, s);
        }
      }
    }
  }

  lemma SafeAtRest(cfg: Config, s: State)
    requires Reachable(cfg, s) && !Sensible(cfg)
    requires cfg.floors == 1 ==> cfg.trips == 0 || PassengersOf(0, cfg.passengers) < 3
    ensures s.ended == None
  {
    var s0, schedule :| Initial(cfg, s0) && s == Run(cfg, s0, schedule);
    OrderlyAtFirst(cfg, s0);
    forall e | 0 <= e < CARS
      ensures MostStarts(cfg, e) < 3 && NotStarted(cfg, s0, e)
    {
      PassengersOfIs(0, cfg.passengers);
      PassengersOfIs(e, cfg.passengers);
      NotStartedAtFirst(cfg, s0, e);
    }
    RestingRun(cfg, s0, schedule);
  }
}
