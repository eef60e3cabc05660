/** Runs of one thread at a time, from which longer ones are put together. */
module ElevatorRuns {
  import opened NearestTarget
  import opened Elevator
  import opened ElevatorSafety
  import opened ElevatorDelivery
  import opened ElevatorStarts
  import opened RidingList

  // ---------------------------------------------------------------- one thread at a time

  /** One turn of an elevator thread, while nobody else moves. */
  function Stepper(cfg: Config, e: nat, xs: seq<Passenger>): Car -> Outcome<Car> {
    c => ElevatorStep(cfg, e, c, xs, false)
  }

  /** Such turns one after the other. */
  function Repeated(step: Car -> Outcome<Car>, c: Car, turns: nat): Outcome<Car>
    decreases turns
  {
    if turns == 0 then Go(c)
    else match step(c)
      case Go(next) => Repeated(step, next, turns - 1)
      case r => r
  }

  function CarRun(cfg: Config, e: nat, c: Car, xs: seq<Passenger>, turns: nat): Outcome<Car> {
    Repeated(Stepper(cfg, e, xs), c, turns)
  }

  /** What every turn keeps, all of them keep. */
  lemma {:induction false} RepeatedKeeps(step: Car -> Outcome<Car>, good: Car -> bool, c: Car, turns: nat)
    requires good(c) && forall a, b :: good(a) && step(a) == Go(b) ==> good(b)
    requires Repeated(step, c, turns).Go?
    ensures good(Repeated(step, c, turns).next)
    decreases turns
  {
    if turns > 0 {
      RepeatedKeeps(step, good, step(c).next, turns - 1);
    }
  }

  /** Reachable, and nobody has stopped. */
  ghost predicate Live(cfg: Config, s: State) {
    Reachable(cfg, s) && |s.cars| == CARS && |s.passengers| == cfg.passengers && s.ended == None && !s.stop
  }

  lemma OneTurn(cfg: Config, s: State, e: nat, next: Car)
    requires Live(cfg, s) && e < CARS && ElevatorStep(cfg, e, s.cars[e], s.passengers, false) == Go(next)
    ensures Live(cfg, s.(cars := s.cars[e := next]))
  {
    FirstTurn(cfg, s, ElevatorTurn(e), []);
    ReachableFurther(cfg, s, [ElevatorTurn(e)] + []);
  }

  /** The state with another car in its place. */
  function WithCar(s: State, e: nat, c: Car): State
    requires e < |s.cars|
  {
    s.(cars := s.cars[e := c])
  }

  lemma OneTurnOn(cfg: Config, s: State, e: nat, c: Car, next: Car)
    requires e < |s.cars| && Live(cfg, WithCar(s, e, c)) && e < CARS
    requires ElevatorStep(cfg, e, c, s.passengers, false) == Go(next)
    ensures Live(cfg, WithCar(s, e, next))
  {
    OneTurn(cfg, WithCar(s, e, c), e, next);
    assert s.cars[e := c][e := next] == s.cars[e := next];
  }

  lemma Drives(cfg: Config, s: State, e: nat, turns: nat, d: Car) returns (t: State)
    requires Live(cfg, s) && e < CARS && CarRun(cfg, e, s.cars[e], s.passengers, turns) == Go(d)
    ensures Live(cfg, t) && t == s.(cars := s.cars[e := d])
  {
    var good := (c: Car) => Live(cfg, WithCar(s, e, c));
    var step := Stepper(cfg, e, s.passengers);
    assert WithCar(s, e, s.cars[e]) == s;
    forall a, b | good(a) && step(a) == Go(b)
      ensures good(b)
    {
      OneTurnOn(cfg, s, e, a, b);
    }
    RepeatedKeeps(step, good, s.cars[e], turns);
    t := WithCar(s, e, d);
  }

  lemma {:induction false} PlanRunIsCarRun(cfg: Config, e: nat, c: Car, xs: seq<Passenger>, turns: nat)
    requires Planning(c.pc) && PlanRun(cfg, e, c, xs, turns).pc.Decide?
    ensures CarRun(cfg, e, c, xs, turns) == Go(PlanRun(cfg, e, c, xs, turns))
    decreases turns
  {
    if turns > 0 {
      var r := PlanStep(cfg, e, c, xs);
      if r.Go? {
        StillPlanning(cfg, e, r.next, xs, turns - 1);
        PlanRunIsCarRun(cfg, e, r.next, xs, turns - 1);
      }
    }
  }

  lemma StillPlanning(cfg: Config, e: nat, c: Car, xs: seq<Passenger>, turns: nat)
    requires PlanRun(cfg, e, c, xs, turns).pc.Decide?
    ensures Planning(c.pc)
  {
    if !Planning(c.pc) {
      PlanRunStays(cfg, e, c, xs, turns);
    }
  }

  lemma {:induction false} PlanRunStays(cfg: Config, e: nat, c: Car, xs: seq<Passenger>, turns: nat)
    requires !Planning(c.pc)
    ensures PlanRun(cfg, e, c, xs, turns) == c
  {
  }

  lemma PlanStepKeeps(cfg: Config, e: nat, c: Car, xs: seq<Passenger>)
    requires Planning(c.pc)
    ensures var r := PlanStep(cfg, e, c, xs);
      r.Go? ==> r.next == c.(pc := r.next.pc, i := r.next.i, closest := r.next.closest,
                             direction := r.next.direction, waitAt := r.next.waitAt)
  {
  }

  /** Planning touches nothing else. */
  lemma {:induction false} PlanRunKeeps(cfg: Config, e: nat, c: Car, xs: seq<Passenger>, turns: nat)
    ensures var d := PlanRun(cfg, e, c, xs, turns);
      d == c.(pc := d.pc, i := d.i, closest := d.closest, direction := d.direction, waitAt := d.waitAt)
    decreases turns
  {
    if turns > 0 {
      var r := PlanStep(cfg, e, c, xs);
      if r.Go? && Planning(c.pc) {
        PlanStepKeeps(cfg, e, c, xs);
        PlanRunKeeps(cfg, e, r.next, xs, turns - 1);
      }
    }
  }

  /** Turns of one passenger thread. */
  function RiderRun(cfg: Config, p: nat, x: Passenger, c: Car, turns: nat): Outcome<(Passenger, Car)>
    decreases turns
  {
    if turns == 0 then Go((x, c))
    else match PassengerStep(cfg, p, x, c, false, 0)
      case Go(next) => RiderRun(cfg, p, next.0, next.1, turns - 1)
      case r => r
  }

  lemma OneRiderTurn(cfg: Config, s: State, p: nat, y: Passenger, d: Car)
    requires Live(cfg, s) && p < cfg.passengers
    requires PassengerStep(cfg, p, s.passengers[p], s.cars[CarOf(p)], false, 0) == Go((y, d))
    ensures Live(cfg, s.(passengers := s.passengers[p := y], cars := s.cars[CarOf(p) := d]))
  {
    FirstTurn(cfg, s, PassengerTurn(p, 0), []);
    ReachableFurther(cfg, s, [PassengerTurn(p, 0)] + []);
  }

  lemma {:induction false} Walks(cfg: Config, s: State, p: nat, turns: nat, y: Passenger, d: Car) returns (t: State)
    requires Live(cfg, s) && p < cfg.passengers
    requires RiderRun(cfg, p, s.passengers[p], s.cars[CarOf(p)], turns) == Go((y, d))
    ensures Live(cfg, t) && t == s.(passengers := s.passengers[p := y], cars := s.cars[CarOf(p) := d])
    decreases turns
  {
    var e := CarOf(p);
    if turns == 0 {
      assert s.cars[e := d] == s.cars && s.passengers[p := y] == s.passengers;
      t := s;
    } else {
      var next := PassengerStep(cfg, p, s.passengers[p], s.cars[e], false, 0).next;
      OneRiderTurn(cfg, s, p, next.0, next.1);
      var u := s.(passengers := s.passengers[p := next.0], cars := s.cars[e := next.1]);
      t := Walks(cfg, u, p, turns - 1, y, d);
      assert u.cars[e := d] == s.cars[e := d] && u.passengers[p := y] == s.passengers[p := y];
    }
  }

  // ---------------------------------------------------------------- the parts of a call

  /** Three turns of a car, given one by one. */
  lemma ThreeTurns(cfg: Config, e: nat, c: Car, xs: seq<Passenger>, c1: Car, c2: Car, c3: Car)
    requires ElevatorStep(cfg, e, c, xs, false) == Go(c1)
    requires ElevatorStep(cfg, e, c1, xs, false) == Go(c2)
    requires ElevatorStep(cfg, e, c2, xs, false) == Go(c3)
    ensures CarRun(cfg, e, c, xs, 3) == Go(c3)
  {
    assert CarRun(cfg, e, c2, xs, 1) == Go(c3);
    assert CarRun(cfg, e, c1, xs, 2) == Go(c3);
  }

  lemma FourTurns(cfg: Config, e: nat, c: Car, xs: seq<Passenger>, c1: Car, c2: Car, c3: Car, c4: Car)
    requires ElevatorStep(cfg, e, c, xs, false) == Go(c1)
    requires ElevatorStep(cfg, e, c1, xs, false) == Go(c2)
    requires ElevatorStep(cfg, e, c2, xs, false) == Go(c3)
    requires ElevatorStep(cfg, e, c3, xs, false) == Go(c4)
    ensures CarRun(cfg, e, c, xs, 4) == Go(c4)
  {
    ThreeTurns(cfg, e, c1, xs, c2, c3, c4);
  }

  /** And four of a passenger. */
  lemma FourRiderTurns(cfg: Config, p: nat, x: Passenger, c: Car, x1: Passenger, c1: Car, x2: Passenger, c2: Car,
                       x3: Passenger, c3: Car, x4: Passenger, c4: Car)
    requires PassengerStep(cfg, p, x, c, false, 0) == Go((x1, c1))
    requires PassengerStep(cfg, p, x1, c1, false, 0) == Go((x2, c2))
    requires PassengerStep(cfg, p, x2, c2, false, 0) == Go((x3, c3))
    requires PassengerStep(cfg, p, x3, c3, false, 0) == Go((x4, c4))
    ensures RiderRun(cfg, p, x, c, 4) == Go((x4, c4))
  {
    assert RiderRun(cfg, p, x3, c3, 1) == Go((x4, c4));
    assert RiderRun(cfg, p, x2, c2, 2) == Go((x4, c4));
    assert RiderRun(cfg, p, x1, c1, 3) == Go((x4, c4));
  }

  /** Between two calls, at rest on a floor of the building with `riding` inside. */
  predicate Resting(cfg: Config, c: Car, floor: int, riding: seq<nat>) {
    && c.pc.Top? && c.floor == floor && c.refFloor == floor && IsFloor(cfg, floor)
    && (c.direction == 1 || c.direction == -1)
    && !c.open && !c.ready && !c.passengerReady
    && c.riding == riding && c.count == |riding| && c.aboard == |riding| && |riding| <= CAPACITY
  }

  /** The car after its planning. */
  predicate Planned(cfg: Config, c: Car, d: Car, target: int) {
    d == c.(pc := Decide, at := c.refFloor, i := d.i, closest := d.closest, waitAt := target,
            direction := Steered(Turned(cfg, c.(at := c.refFloor)), target, c.refFloor))
  }

  /** Undisturbed, a call plans as `Plan` does. */
  lemma Plans(cfg: Config, s: State, e: nat, floor: int, riding: seq<nat>) returns (t: State, d: Car)
    requires Live(cfg, s) && e < CARS && Resting(cfg, s.cars[e], floor, riding) && s.cars[e].start >= 3
    requires ListOk(e, riding, |s.passengers|)
    requires forall p | 0 <= p < |s.passengers| :: PassengerOk(cfg, p, s.passengers[p])
    ensures Live(cfg, t) && t == WithCar(s, e, d)
    ensures Planned(cfg, s.cars[e], d, NearestOrNone(Asked(s.cars[e], s.passengers, e), floor))
  {
    var c, xs := s.cars[e], s.passengers;
    var gate := c.(pc := Gate, at := floor);
    OneTurn(cfg, s, e, gate);
    var u := WithCar(s, e, gate);
    var turns := PlanTurnByTurn(cfg, e, gate, gate, xs);
    PlanRunKeeps(cfg, e, gate, xs, turns);
    PlanRunIsCarRun(cfg, e, gate, xs, turns);
    assert Asked(gate, xs, e) == Asked(c, xs, e);
    d := PlanRun(cfg, e, gate, xs, turns);
    t := Drives(cfg, u, e, turns, d);
    assert u.cars[e := d] == s.cars[e := d];
  }

  function Offered(c: Car): Car {
    c.(pc := AwaitPassenger, open := true, waitAt := NO_TARGET, ready := true)
  }

  lemma ChecksTwice(cfg: Config, e: nat, c: Car, xs: seq<Passenger>)
    requires c.pc.Decide? && c.waitAt == c.at && !c.open && 0 <= c.aboard <= CAPACITY
    ensures CarRun(cfg, e, c, xs, 3) == Go(c.(pc := OpenAct))
  {
    ThreeTurns(cfg, e, c, xs, c.(pc := OpenCheck1), c.(pc := OpenCheck2), c.(pc := OpenAct));
  }

  lemma Offers(cfg: Config, e: nat, c: Car, xs: seq<Passenger>)
    requires c.pc.OpenAct?
    ensures CarRun(cfg, e, c, xs, 3) == Go(Offered(c))
  {
    var clear := c.(pc := ClearTarget, open := true);
    var publish := clear.(pc := PublishReady, waitAt := NO_TARGET);
    ThreeTurns(cfg, e, c, xs, clear, publish, publish.(pc := AwaitPassenger, ready := true));
  }

  /** Deciding to open on this floor, a car does. */
  lemma Opens(cfg: Config, s: State, e: nat) returns (t: State)
    requires Live(cfg, s) && e < CARS
    requires var c := s.cars[e]; c.pc.Decide? && c.waitAt == c.at && !c.open && 0 <= c.aboard <= CAPACITY
    ensures Live(cfg, t) && t == WithCar(s, e, Offered(s.cars[e]))
  {
    var c := s.cars[e];
    var act := c.(pc := OpenAct);
    ChecksTwice(cfg, e, c, s.passengers);
    var u := Drives(cfg, s, e, 3, act);
    Offers(cfg, e, act, s.passengers);
    t := Drives(cfg, u, e, 3, Offered(act));
    assert u.cars[e := Offered(c)] == s.cars[e := Offered(c)];
  }

  /** A passenger with the referee's leave to be inside, and his car. */
  function Entered(p: nat, x: Passenger): Passenger {
    x.(pc := MarkRiding, inside := CarOf(p), state := ENTERED)
  }

  function TakenIn(x: Passenger, c: Car): Car {
    c.(waitAt := x.origin, ready := false, aboard := c.aboard + 1)
  }

  /** And once he is on the scheduler's record as a rider. */
  function Boarded(p: nat, x: Passenger): Passenger {
    x.(pc := AwaitExit, inside := CarOf(p), state := ENTERED, status := 1)
  }

  function Taken(p: nat, x: Passenger, c: Car): Car {
    c.(waitAt := x.origin, ready := false, aboard := c.aboard + 1, count := c.count + 1, riding := c.riding + [p],
       passengerReady := true)
  }

  /** The passenger's wait is over, and the referee will not object. */
  predicate MayBoard(x: Passenger, c: Car) {
    && c.ready && c.open && c.floor == c.refFloor == x.origin && c.count == c.aboard < CAPACITY
    && x.pc.AwaitEntry? && x.state == WAITING
  }

  /** He takes the token and enters. */
  lemma Enters(cfg: Config, p: nat, x: Passenger, c: Car)
    requires MayBoard(x, c)
    ensures RiderRun(cfg, p, x, c, 4) == Go((Entered(p, x), TakenIn(x, c)))
  {
    var taken := c.(waitAt := x.origin, ready := false);
    FourRiderTurns(cfg, p, x, c, x.(pc := EntryCheck1), taken, x.(pc := EntryCheck2), taken, x.(pc := EntryAct), taken,
                   Entered(p, x), TakenIn(x, c));
  }

  /** He is counted and listed, and hands the token back. */
  lemma SignsIn(cfg: Config, p: nat, x: Passenger, c: Car)
    ensures RiderRun(cfg, p, Entered(p, x), TakenIn(x, c), 4) == Go((Boarded(p, x), Taken(p, x, c)))
  {
    var y, d := Entered(p, x).(status := 1), TakenIn(x, c);
    var counted := d.(count := c.count + 1);
    var listed := counted.(riding := c.riding + [p]);
    FourRiderTurns(cfg, p, Entered(p, x), d, y.(pc := CountIn), d, y.(pc := Link), counted,
                   y.(pc := PublishEntry), listed, Boarded(p, x), Taken(p, x, c));
  }

  lemma Boards(cfg: Config, s: State, p: nat) returns (t: State)
    requires Live(cfg, s) && p < cfg.passengers && MayBoard(s.passengers[p], s.cars[CarOf(p)])
    ensures Live(cfg, t)
    ensures t == s.(passengers := s.passengers[p := Boarded(p, s.passengers[p])],
                    cars := s.cars[CarOf(p) := Taken(p, s.passengers[p], s.cars[CarOf(p)])])
  {
    var x, c := s.passengers[p], s.cars[CarOf(p)];
    Enters(cfg, p, x, c);
    var u := Walks(cfg, s, p, 4, Entered(p, x), TakenIn(x, c));
    SignsIn(cfg, p, x, c);
    t := Walks(cfg, u, p, 4, Boarded(p, x), Taken(p, x, c));
    assert u.cars[CarOf(p) := Taken(p, x, c)] == s.cars[CarOf(p) := Taken(p, x, c)];
    assert u.passengers[p := Boarded(p, x)] == s.passengers[p := Boarded(p, x)];
  }

  function Shut(c: Car): Car {
    c.(pc := MoveCheck1, passengerReady := false, open := false)
  }

  lemma ClosesTheDoor(cfg: Config, e: nat, c: Car, xs: seq<Passenger>)
    requires c.pc.AwaitPassenger? && c.passengerReady && c.open && 0 <= c.aboard <= CAPACITY
    ensures CarRun(cfg, e, c, xs, 4) == Go(Shut(c))
  {
    var cleared := c.(pc := CloseCheck, passengerReady := false);
    FourTurns(cfg, e, c, xs, c.(pc := ClearReady), cleared, cleared.(pc := CloseAct), Shut(c));
  }

  /** With the token back, the door closes. */
  lemma Closes(cfg: Config, s: State, e: nat) returns (t: State)
    requires Live(cfg, s) && e < CARS
    requires var c := s.cars[e]; c.pc.AwaitPassenger? && c.passengerReady && c.open && 0 <= c.aboard <= CAPACITY
    ensures Live(cfg, t) && t == WithCar(s, e, Shut(s.cars[e]))
  {
    ClosesTheDoor(cfg, e, s.cars[e], s.passengers);
    t := Drives(cfg, s, e, 4, Shut(s.cars[e]));
  }

  function Moved(c: Car): Car {
    c.(pc := Top, refFloor := c.refFloor + c.direction, floor := c.at + c.direction)
  }

  lemma MovesOn(cfg: Config, e: nat, c: Car, xs: seq<Passenger>)
    requires c.pc.MoveCheck1? && !c.open && 0 <= c.aboard <= CAPACITY && IsFloor(cfg, c.refFloor)
    ensures CarRun(cfg, e, c, xs, 4) == Go(Moved(c))
  {
    var settle := c.(pc := Settle, refFloor := c.refFloor + c.direction);
    FourTurns(cfg, e, c, xs, c.(pc := MoveCheck2), c.(pc := MoveAct), settle, Moved(c));
  }

  /** And the car moves by one floor. */
  lemma Leaves(cfg: Config, s: State, e: nat) returns (t: State)
    requires Live(cfg, s) && e < CARS
    requires var c := s.cars[e];
      c.pc.MoveCheck1? && !c.open && 0 <= c.aboard <= CAPACITY && IsFloor(cfg, c.refFloor)
    ensures Live(cfg, t) && t == WithCar(s, e, Moved(s.cars[e]))
  {
    MovesOn(cfg, e, s.cars[e], s.passengers);
    t := Drives(cfg, s, e, 4, Moved(s.cars[e]));
  }

  // ---------------------------------------------------------------- whole calls

  /** At an open door, with the token on offer. */
  predicate Serves(c: Car, floor: int, riding: seq<nat>, direction: int) {
    && c.pc.AwaitPassenger? && c.ready && c.open && !c.passengerReady
    && c.at == floor && c.floor == floor && c.refFloor == floor && c.direction == direction
    && c.riding == riding && c.count == |riding| && c.aboard == |riding| && |riding| <= CAPACITY
  }

  /** With the door shut again, about to move. */
  predicate Departs(c: Car, floor: int, riding: seq<nat>, direction: int) {
    && c.pc.MoveCheck1? && !c.ready && !c.open && !c.passengerReady
    && c.at == floor && c.floor == floor && c.refFloor == floor && c.direction == direction
    && c.riding == riding && c.count == |riding| && c.aboard == |riding| && |riding| <= CAPACITY
  }

  /** A car whose nearest request is on its own floor opens its door there. */
  lemma OpensHere(cfg: Config, s: State, e: nat, floor: int, riding: seq<nat>) returns (t: State)
    requires Live(cfg, s) && e < CARS && Resting(cfg, s.cars[e], floor, riding) && s.cars[e].start >= 3
    requires ListOk(e, riding, |s.passengers|)
    requires forall p | 0 <= p < |s.passengers| :: PassengerOk(cfg, p, s.passengers[p])
    requires NearestOrNone(Asked(s.cars[e], s.passengers, e), floor) == floor
    ensures Live(cfg, t) && t.passengers == s.passengers && t.cars[e].start == s.cars[e].start
    ensures Serves(t.cars[e], floor, riding, Turned(cfg, s.cars[e].(at := floor)))
  {
    var u, d := Plans(cfg, s, e, floor, riding);
    t := Opens(cfg, u, e);
  }

  /** One whose target is elsewhere moves on by a floor. */
  lemma PassesBy(cfg: Config, s: State, e: nat, floor: int, riding: seq<nat>, target: int) returns (t: State)
    requires Live(cfg, s) && e < CARS && Resting(cfg, s.cars[e], floor, riding) && s.cars[e].start >= 3
    requires ListOk(e, riding, |s.passengers|)
    requires forall p | 0 <= p < |s.passengers| :: PassengerOk(cfg, p, s.passengers[p])
    requires target == NearestOrNone(Asked(s.cars[e], s.passengers, e), floor) != floor
    requires IsFloor(cfg, floor + Steered(Turned(cfg, s.cars[e].(at := floor)), target, floor))
    ensures Live(cfg, t) && t.passengers == s.passengers && t.cars[e].start == s.cars[e].start
    ensures Resting(cfg, t.cars[e], floor + Steered(Turned(cfg, s.cars[e].(at := floor)), target, floor), riding)
  {
    var u, d := Plans(cfg, s, e, floor, riding);
    OneTurn(cfg, u, e, d.(pc := MoveCheck1));
    t := Leaves(cfg, WithCar(u, e, d.(pc := MoveCheck1)), e);
  }

  /** Somebody who waits on the floor gets in, and the door closes behind him. */
  lemma LetsIn(cfg: Config, s: State, p: nat, floor: int, riding: seq<nat>, direction: int) returns (t: State)
    requires Live(cfg, s) && p < cfg.passengers && |riding| < CAPACITY
    requires Serves(s.cars[CarOf(p)], floor, riding, direction)
    requires var x := s.passengers[p]; x.pc.AwaitEntry? && x.state == WAITING && x.origin == floor
    ensures Live(cfg, t) && t.passengers == s.passengers[p := Boarded(p, s.passengers[p])]
    ensures t.cars[CarOf(p)].start == s.cars[CarOf(p)].start
    ensures Departs(t.cars[CarOf(p)], floor, riding + [p], direction)
  {
    var u := Boards(cfg, s, p);
    t := Closes(cfg, u, CarOf(p));
  }

  // ---------------------------------------------------------------- a passenger registers

  /** A passenger after an undisturbed registration for a trip to floor 0. */
  function AfterRegistration(p: nat, x: Passenger): Passenger
    requires x.trips > 0
  {
    x.(pc := AwaitEntry, trips := x.trips - 1, destination := 0, state := WAITING,
       from := x.origin, to := 0, elevator := CarOf(p), status := 0)
  }

  lemma FirstTurn(cfg: Config, s: State, a: Action, rest: seq<Action>)
    ensures Run(cfg, s, [a] + rest) == Run(cfg, Apply(cfg, s, a), rest)
  {
    assert ([a] + rest)[1..] == rest;
  }

  function Repeat(a: Action, n: nat): seq<Action> {
    if n == 0 then [] else [a] + Repeat(a, n - 1)
  }

  /** The first four turns: the destination is drawn and the floors are written. */
  lemma WritesFloors(cfg: Config, s: State, p: nat)
    requires |s.cars| == CARS && s.ended == None && !s.stop && cfg.floors > 0
    requires p < |s.passengers| && s.passengers[p].pc.NextTrip? && s.passengers[p].trips > 0
    ensures var x, c := s.passengers[p], s.cars[CarOf(p)];
      Run(cfg, s, Repeat(PassengerTurn(p, 0), 4))
        == s.(passengers := s.passengers[p := x.(pc := SetElevator, trips := x.trips - 1, destination := 0,
                                                 state := WAITING, from := x.origin, to := 0)],
              cars := s.cars[CarOf(p) := c.(waitAt := x.origin)])
  {
    var a, e := PassengerTurn(p, 0), CarOf(p);
    var x, c := s.passengers[p], s.cars[e];
    assert Draw(cfg, 0) == 0;
    var x1 := x.(pc := SetWaitAt, trips := x.trips - 1, destination := 0, state := WAITING);
    var s1 := s.(passengers := s.passengers[p := x1]);
    assert Apply(cfg, s, a) == s1;
    FirstTurn(cfg, s, a, Repeat(a, 3));
    var s2 := s.(passengers := s.passengers[p := x1.(pc := SetFrom)], cars := s.cars[e := c.(waitAt := x.origin)]);
    assert Apply(cfg, s1, a) == s2;
    FirstTurn(cfg, s1, a, Repeat(a, 2));
    var s3 := s2.(passengers := s.passengers[p := x1.(pc := SetTo, from := x.origin)]);
    assert Apply(cfg, s2, a) == s3;
    FirstTurn(cfg, s2, a, Repeat(a, 1));
    FirstTurn(cfg, s3, a, Repeat(a, 0));
  }

  /** The other three: the car and the status are written, and the start is counted. */
  lemma WritesCar(cfg: Config, s: State, p: nat)
    requires |s.cars| == CARS && s.ended == None
    requires p < |s.passengers| && s.passengers[p].pc.SetElevator?
    ensures var x, c := s.passengers[p], s.cars[CarOf(p)];
      Run(cfg, s, Repeat(PassengerTurn(p, 0), 3))
        == s.(passengers := s.passengers[p := x.(pc := AwaitEntry, elevator := CarOf(p), status := 0)],
              cars := s.cars[CarOf(p) := c.(start := c.start + 1)])
  {
    var a, e := PassengerTurn(p, 0), CarOf(p);
    var x := s.passengers[p].(pc := SetStatus, elevator := e);
    var s1 := s.(passengers := s.passengers[p := x]);
    assert Apply(cfg, s, a) == s1;
    FirstTurn(cfg, s, a, Repeat(a, 2));
    var s2 := s.(passengers := s.passengers[p := x.(pc := CountStart, status := 0)]);
    assert Apply(cfg, s1, a) == s2;
    FirstTurn(cfg, s1, a, Repeat(a, 1));
    FirstTurn(cfg, s2, a, Repeat(a, 0));
  }

  lemma RegistersFurther(cfg: Config, s: State, p: nat)
    requires Reachable(cfg, s)
    requires |s.cars| == CARS && s.ended == None && !s.stop && cfg.floors > 0
    requires p < |s.passengers| && s.passengers[p].pc.NextTrip? && s.passengers[p].trips > 0
    ensures var x, c := s.passengers[p], s.cars[CarOf(p)];
      Reachable(cfg, s.(passengers := s.passengers[p := AfterRegistration(p, x)],
                        cars := s.cars[CarOf(p) := c.(waitAt := x.origin, start := c.start + 1)]))
  {
    var a := PassengerTurn(p, 0);
    WritesFloors(cfg, s, p);
    ReachableFurther(cfg, s, Repeat(a, 4));
    var t := Run(cfg, s, Repeat(a, 4));
    WritesCar(cfg, t, p);
    ReachableFurther(cfg, t, Repeat(a, 3));
    var x, c := s.passengers[p], s.cars[CarOf(p)];
    assert Run(cfg, t, Repeat(a, 3))
        == s.(passengers := s.passengers[p := AfterRegistration(p, x)],
              cars := s.cars[CarOf(p) := c.(waitAt := x.origin, start := c.start + 1)]);
  }

  const RESTING_CAR := Car(Top, 0, 0, 0, 0, 1, 0, NO_TARGET, false, false, [], 0, 0, false, 0)

  // ---------------------------------------------------------------- the passengers of one car register

  function Newcomer(cfg: Config, floor: int): Passenger {
    Passenger(NextTrip, cfg.trips, floor, 0, floor, -1, WAITING, 0, 0, 0, 0)
  }

  /** Passengers of car `e` start on floor `home`, except for one who is late, and like
      everybody else starts on floor 1. Of the first `m` those on time have registered. */
  function Gathering(cfg: Config, e: nat, home: int, late: nat, m: nat, i: nat): Passenger
    requires cfg.trips > 0
  {
    if CarOf(i) != e || i == late then Newcomer(cfg, 1)
    else if i < m then AfterRegistration(i, Newcomer(cfg, home))
    else Newcomer(cfg, home)
  }

  ghost predicate Gathered(cfg: Config, s: State, e: nat, home: int, late: nat, m: nat)
    requires cfg.trips > 0
  {
    && Live(cfg, s) && e < CARS && m <= cfg.passengers
    && (forall i | 0 <= i < cfg.passengers :: s.passengers[i] == Gathering(cfg, e, home, late, m, i))
    && Resting(cfg, s.cars[e], 0, []) && s.cars[e].at == 0
    && s.cars[e].start == PassengersOf(e, m) - One(late < m && CarOf(late) == e)
  }

  lemma NobodyGathered(cfg: Config, e: nat, home: int, late: nat) returns (s: State)
    requires Sensible(cfg) && cfg.trips > 0 && e < CARS && IsFloor(cfg, home)
    ensures Gathered(cfg, s, e, home, late, 0)
  {
    s := State(seq(CARS, _ => RESTING_CAR),
               seq(cfg.passengers, i requires 0 <= i < cfg.passengers => Gathering(cfg, e, home, late, 0, i)),
               false, None);
    assert Initial(cfg, s) && s == Run(cfg, s, []);
  }

  lemma OneMoreGathers(cfg: Config, s: State, e: nat, home: int, late: nat, m: nat) returns (t: State)
    requires Sensible(cfg) && cfg.trips > 0 && Gathered(cfg, s, e, home, late, m) && m < cfg.passengers
    ensures Gathered(cfg, t, e, home, late, m + 1)
  {
    if CarOf(m) != e || m == late {
      t := s;
    } else {
      var c := s.cars[e];
      assert s.passengers[m] == Newcomer(cfg, home);
      RegistersFurther(cfg, s, m);
      t := s.(passengers := s.passengers[m := AfterRegistration(m, Newcomer(cfg, home))],
              cars := s.cars[e := c.(waitAt := home, start := c.start + 1)]);
    }
  }

  lemma {:induction false} Gathers(cfg: Config, e: nat, home: int, late: nat, m: nat) returns (s: State)
    requires Sensible(cfg) && cfg.trips > 0 && e < CARS && m <= cfg.passengers && IsFloor(cfg, home)
    ensures Gathered(cfg, s, e, home, late, m)
  {
    if m == 0 {
      s := NobodyGathered(cfg, e, home, late);
    } else {
      s := Gathers(cfg, e, home, late, m - 1);
      s := OneMoreGathers(cfg, s, e, home, late, m - 1);
    }
  }

  lemma {:induction false} WaiterFloorsHas(xs: seq<Passenger>, e: nat, m: nat, q: nat)
    requires q < m <= |xs| && AsksFor(xs[q], e)
    ensures xs[q].from in WaiterFloors(xs, e, m)
  {
    if q < m - 1 {
      WaiterFloorsHas(xs, e, m - 1, q);
    }
  }

}
