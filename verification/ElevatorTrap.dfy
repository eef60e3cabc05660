/** When exactly a car can be caught with its door open for nobody. Car 0 needs three
    passengers, since records not yet written mislead it. Another car needs four: three
    fill it, and the last one's late write to its target, made between its planning and
    its decision, has it open where he cannot get in and nobody wants to get out. */
module ElevatorTrap {
  import opened NearestTarget
  import opened Elevator
  import opened Census
  import opened ElevatorSafety
  import opened ElevatorDelivery
  import opened ElevatorProgress
  import opened ElevatorStarts
  import opened ElevatorBounds
  import opened ElevatorRuns
  import opened ElevatorPhantom
  import opened ElevatorAim

  // ---------------------------------------------------------------- the crew of car e

  /** Passenger `e` is the one who will be late; the others of car `e` are on floor 0. */
  function Waiting(cfg: Config, i: nat): Passenger
    requires cfg.trips > 0
  {
    AfterRegistration(i, Newcomer(cfg, 0))
  }

  /** Then `k` of them are inside. */
  function Member(cfg: Config, e: nat, k: nat, i: nat): Passenger
    requires cfg.trips > 0
  {
    if CarOf(i) != e || i == e then Newcomer(cfg, 1)
    else if i <= e + 4 * k then Boarded(i, Waiting(cfg, i))
    else Waiting(cfg, i)
  }

  ghost predicate Crew(cfg: Config, xs: seq<Passenger>, e: nat, k: nat)
    requires cfg.trips > 0
  {
    forall i | 0 <= i < |xs| :: xs[i] == Member(cfg, e, k, i)
  }

  lemma CrewBoards(cfg: Config, xs: seq<Passenger>, e: nat, k: nat, p: nat)
    requires cfg.trips > 0 && Crew(cfg, xs, e, k) && e < CARS && p < |xs| && p == e + 4 * (k + 1)
    ensures CarOf(p) == e && xs[p] == Waiting(cfg, p)
    ensures Crew(cfg, xs[p := Boarded(p, Waiting(cfg, p))], e, k + 1)
  {
    forall i | 0 <= i < |xs| && CarOf(i) == e && e + 4 * k < i <= p
      ensures i == p
    {
    }
  }

  function Riders(e: nat, k: nat): (riding: seq<nat>)
    ensures |riding| == k
    ensures forall j | 0 <= j < k :: riding[j] == e + 4 * (j + 1)
  {
    if k == 0 then [] else Riders(e, k - 1) + [e + 4 * k]
  }

  /** The car rests on `floor` with `k` of them inside. */
  ghost predicate With(cfg: Config, s: State, e: nat, k: nat, floor: int) {
    && Sensible(cfg) && cfg.trips > 0 && Live(cfg, s) && 0 < e < CARS && e + 12 < cfg.passengers && k <= 3
    && Crew(cfg, s.passengers, e, k)
    && Resting(cfg, s.cars[e], floor, Riders(e, k)) && s.cars[e].start >= 3
  }

  // ---------------------------------------------------------------- up and down with them

  /** Wherever the car is, it is floor 0 it wants to go to. */
  lemma TargetIsGround(cfg: Config, s: State, e: nat, k: nat, floor: int)
    requires With(cfg, s, e, k, floor) && (k == 0 ==> floor == 0)
    ensures NearestOrNone(Asked(s.cars[e], s.passengers, e), floor) == 0
  {
    var xs := s.passengers;
    if k == 0 {
      WaiterFloorsHas(xs, e, |xs|, e + 4);
      NearestIsLeast(WaiterFloors(xs, e, |xs|), 0);
    } else {
      var floors := RiderFloors(xs, Riders(e, k));
      forall j | 0 <= j < |floors|
        ensures floors[j] == 0
      {
        assert xs[e + 4 * (j + 1)] == Member(cfg, e, k, e + 4 * (j + 1));
      }
      NearestIsLeast(floors, floor);
    }
  }

  /** On floor 0 the next of them gets in, and the car goes up. */
  lemma OneMore(cfg: Config, s: State, e: nat, k: nat) returns (t: State)
    requires With(cfg, s, e, k, 0) && k < 3
    ensures With(cfg, t, e, k + 1, 1)
  {
    var p := e + 4 * (k + 1);
    CrewBoards(cfg, s.passengers, e, k, p);
    t := NextGetsIn(cfg, s, e, k, p);
    t := Leaves(cfg, t, e);
  }

  lemma NextGetsIn(cfg: Config, s: State, e: nat, k: nat, p: nat) returns (t: State)
    requires With(cfg, s, e, k, 0) && k < 3 && p < cfg.passengers
    requires CarOf(p) == e && s.passengers[p] == Waiting(cfg, p)
    ensures Live(cfg, t) && t.passengers == s.passengers[p := Boarded(p, Waiting(cfg, p))]
    ensures t.cars[e].start == s.cars[e].start
    ensures Departs(t.cars[e], 0, Riders(e, k) + [p], 1)
  {
    ReachableInv(cfg, s);
    TargetIsGround(cfg, s, e, k, 0);
    t := OpensHere(cfg, s, e, 0, Riders(e, k));
    t := LetsIn(cfg, t, p, 0, Riders(e, k), 1);
  }

  /** On floor 1 nobody gets out, and it goes down again. */
  lemma DownAgain(cfg: Config, s: State, e: nat, k: nat) returns (t: State)
    requires With(cfg, s, e, k, 1) && k > 0
    ensures With(cfg, t, e, k, 0)
  {
    ReachableInv(cfg, s);
    TargetIsGround(cfg, s, e, k, 1);
    t := PassesBy(cfg, s, e, 1, Riders(e, k), 0);
  }

  // ---------------------------------------------------------------- the last one is late

  /** The car has decided to go by. */
  ghost predicate GoesBy(cfg: Config, s: State, e: nat) {
    && Live(cfg, s) && e < cfg.passengers && e < CARS && s.passengers[e] == Newcomer(cfg, 1)
    && var c := s.cars[e];
       c.pc.Decide? && c.at == 1 && c.floor == 1 && !c.open && !c.passengerReady && c.count == 3 && c.aboard == 3
  }

  lemma PlansToGoBy(cfg: Config, s: State, e: nat) returns (t: State)
    requires With(cfg, s, e, 3, 1)
    ensures GoesBy(cfg, t, e) && t.passengers == s.passengers
  {
    ReachableInv(cfg, s);
    var d;
    t, d := Plans(cfg, s, e, 1, Riders(e, 3));
    assert s.passengers[e] == Member(cfg, e, 3, e);
  }

  /** With three inside the last passenger registers, and has the door opened. */
  lemma LateRegistration(cfg: Config, s: State, e: nat) returns (t: State)
    requires GoesBy(cfg, s, e) && Sensible(cfg) && cfg.trips > 0
    ensures Live(cfg, t) && t.passengers == s.passengers[e := AfterRegistration(e, Newcomer(cfg, 1))]
    ensures var c := t.cars[e]; c.pc.AwaitPassenger? && c.floor == 1 && c.count == 3 && !c.passengerReady
  {
    var c := s.cars[e];
    RegistersFurther(cfg, s, e);
    var u := s.(passengers := s.passengers[e := AfterRegistration(e, Newcomer(cfg, 1))],
                cars := s.cars[e := c.(waitAt := 1, start := c.start + 1)]);
    t := Opens(cfg, u, e);
  }

  predicate Waits(x: Passenger) {
    x.pc.AwaitEntry? || x.pc.AwaitExit?
  }

  /** Every passenger of the car waits to be let in or out. */
  ghost predicate AllWaiting(s: State, e: nat) {
    forall p | 0 <= p < |s.passengers| && CarOf(p) == e :: Waits(s.passengers[p])
  }

  lemma LateOpens(cfg: Config, s: State, e: nat) returns (t: State)
    requires With(cfg, s, e, 3, 1)
    ensures Reachable(cfg, t) && Stuck(t, e) && AllWaiting(t, e)
  {
    var u := PlansToGoBy(cfg, s, e);
    t := LateRegistration(cfg, u, e);
    forall p | 0 <= p < |t.passengers| && CarOf(p) == e
      ensures var x := t.passengers[p]; Waits(x) && !MayTake(x, t.cars[e])
    {
      assert p != e ==> t.passengers[p] == Member(cfg, e, 3, p);
    }
  }

  /** In every building a car with four passengers can be caught. */
  lemma FourAreTrapped(cfg: Config, e: nat) returns (t: State)
    requires Sensible(cfg) && cfg.trips > 0 && 0 < e < CARS && PassengersOf(e, cfg.passengers) >= 4
    ensures Reachable(cfg, t) && Stuck(t, e) && AllWaiting(t, e)
  {
    PassengersOfIs(e, cfg.passengers);
    var s := Gathers(cfg, e, 0, e, cfg.passengers);
    assert With(cfg, s, e, 0, 0);
    s := OneMore(cfg, s, e, 0);
    s := DownAgain(cfg, s, e, 1);
    s := OneMore(cfg, s, e, 1);
    s := DownAgain(cfg, s, e, 2);
    s := OneMore(cfg, s, e, 2);
    t := LateOpens(cfg, s, e);
  }

  // ---------------------------------------------------------------- fewer are never trapped

  /** A count that leaves out one of the car's passengers. */
  lemma {:induction false} CountedBelowAll(xs: seq<Passenger>, e: nat, m: nat, p: nat)
    requires p < m <= |xs| && CarOf(p) == e && !Is(Counted, xs[p].pc)
    ensures Sum(Counted, xs, e, m) < PassengersOf(e, m)
  {
    if p == m - 1 {
      CountedAtMostAll(xs, e, m - 1);
    } else {
      CountedBelowAll(xs, e, m - 1, p);
    }
  }

  lemma {:induction false} CountedAtMostAll(xs: seq<Passenger>, e: nat, m: nat)
    requires m <= |xs|
    ensures Sum(Counted, xs, e, m) <= PassengersOf(e, m)
  {
    if m > 0 {
      CountedAtMostAll(xs, e, m - 1);
    }
  }

  lemma ThereButNotServed(x: Passenger, c: Car)
    requires There(x, c.floor) && OnTrip(x) && c.ready && !MayTake(x, c)
    ensures x.pc.AwaitEntry? && x.origin == c.floor && c.count >= CAPACITY
  {
  }

  /** A car other than car 0 is stuck only with somebody waiting at its open door for
      whom it is full. */
  lemma StuckIsFull(cfg: Config, s: State, e: nat) returns (p: nat)
    requires Sensible(cfg) && Reachable(cfg, s) && 0 < e < CARS && Stuck(s, e)
    ensures s.cars[e].count >= CAPACITY
    ensures p < |s.passengers| && CarOf(p) == e
    ensures s.passengers[p].pc.AwaitEntry? && s.passengers[p].origin == s.cars[e].floor
  {
    var c, xs := s.cars[e], s.passengers;
    ReachableInv(cfg, s);
    StuckOffers(cfg, s, e);
    OpensForSomebody(cfg, s, e);
    p :| p < |xs| && CarOf(p) == e && There(xs[p], c.floor);
    ThereButNotServed(xs[p], c);
  }

  lemma ThreeAreSafe(cfg: Config, s: State, e: nat)
    requires Sensible(cfg) && Reachable(cfg, s)
    requires 0 < e < CARS && PassengersOf(e, cfg.passengers) <= 3
    ensures !Stuck(s, e)
  {
    if Stuck(s, e) {
      var p := StuckIsFull(cfg, s, e);
      ReachableInv(cfg, s);
      StuckOffers(cfg, s, e);
      CountedBelowAll(s.passengers, e, |s.passengers|, p);
    }
  }

  /** How many passengers a car needs to be caught. */
  function EnoughToTrap(e: nat): nat {
    if e == 0 then 3 else 4
  }

  /** Some run gets a car stuck, with all its passengers on trips they have registered for,
      exactly if it is car 0 and has three passengers, or another car and has four. */
  lemma StuckExactlyWhen(cfg: Config, e: nat)
    requires Sensible(cfg) && e < CARS
    ensures (exists s :: Reachable(cfg, s) && Stuck(s, e))
       <==> cfg.trips > 0 && PassengersOf(e, cfg.passengers) >= EnoughToTrap(e)
  {
    PassengersOfIs(e, cfg.passengers);
    if cfg.trips > 0 && PassengersOf(e, cfg.passengers) >= EnoughToTrap(e) {
      var s;
      if e == 0 {
        s := CarZeroCanDeadlock(cfg);
      } else {
        s := FourAreTrapped(cfg, e);
      }
    } else {
      forall s | Reachable(cfg, s)
        ensures !Stuck(s, e)
      {
        if MostStarts(cfg, e) < 3 {
          NeverStarts(cfg, s, e);
        } else {
          ThreeAreSafe(cfg, s, e);
        }
      }
    }
  }

  // ---------------------------------------------------------------- when a car always goes on

  /** A reachable state in which not all of the car's passengers are delivered, and none
      of its threads can go on. */
  ghost predicate Standstill(cfg: Config, s: State, e: nat) {
    Reachable(cfg, s) && !Delivered(s, e) && !CanGoOn(cfg, s, e)
  }

  lemma StuckStandsStill(cfg: Config, s: State, e: nat)
    requires Reachable(cfg, s) && Stuck(s, e) && AllWaiting(s, e) && e < |s.passengers|
    ensures Standstill(cfg, s, e)
  {
    assert CarOf(e) == e && Waits(s.passengers[e]);
    forall a | TurnOf(a, e)
      ensures Apply(cfg, s, a) == s
    {
      if a.PassengerTurn? && a.p < |s.passengers| {
        assert Waits(s.passengers[a.p]) && !MayTake(s.passengers[a.p], s.cars[e]);
      }
    }
  }

  /** One or two passengers are left waiting before the car's gate. */
  lemma TwoWaitAtGate(cfg: Config, e: nat) returns (t: State)
    requires Sensible(cfg) && cfg.trips > 0 && e < CARS && 0 < PassengersOf(e, cfg.passengers) < 3
    ensures Standstill(cfg, t, e)
  {
    PassengersOfIs(e, cfg.passengers);
    var s := Gathers(cfg, e, 1, cfg.passengers, cfg.passengers);
    var gate := s.cars[e].(pc := Gate);
    OneTurn(cfg, s, e, gate);
    t := WithCar(s, e, gate);
    GateStandsStill(cfg, t, e);
  }

  lemma GateStandsStill(cfg: Config, s: State, e: nat)
    requires cfg.trips > 0 && Live(cfg, s) && e < CARS && e < cfg.passengers
    requires s.cars[e].pc.Gate? && s.cars[e].start < 3 && !s.cars[e].ready
    requires forall p | 0 <= p < cfg.passengers && CarOf(p) == e ::
               s.passengers[p] == AfterRegistration(p, Newcomer(cfg, 1))
    ensures Standstill(cfg, s, e)
  {
    assert CarOf(e) == e && s.passengers[e].pc.AwaitEntry?;
    forall a | TurnOf(a, e)
      ensures Apply(cfg, s, a) == s
    {
      if a.PassengerTurn? && a.p < |s.passengers| {
        assert s.passengers[a.p].pc.AwaitEntry?;
      }
    }
  }

  lemma StandstillExists(cfg: Config, e: nat) returns (s: State)
    requires Sensible(cfg) && cfg.trips > 0 && e < CARS
    requires PassengersOf(e, cfg.passengers) != 0 && (e == 0 || PassengersOf(e, cfg.passengers) != 3)
    ensures Standstill(cfg, s, e)
  {
    PassengersOfIs(e, cfg.passengers);
    if PassengersOf(e, cfg.passengers) < 3 {
      s := TwoWaitAtGate(cfg, e);
    } else {
      if e == 0 {
        s := CarZeroCanDeadlock(cfg);
      } else {
        s := FourAreTrapped(cfg, e);
      }
      ReachableInv(cfg, s);
      StuckStandsStill(cfg, s, e);
    }
  }

  /** A passenger who is not on a trip, nor done, can go on at any time. */
  lemma NotOnTripCanTurn(cfg: Config, s: State, p: nat)
    requires Inv(cfg, s) && LastTrips(s) && p < |s.passengers| && !OnTrip(s.passengers[p])
    ensures Apply(cfg, s, PassengerTurn(p, 0)) != s
  {
    var x, c := s.passengers[p], s.cars[CarOf(p)];
    assert LastTrip(p, x) && PassengerOk(cfg, p, x);
    var r := PassengerStep(cfg, p, x, c, s.stop, 0);
    assert r.Go? && r.next.0.pc != x.pc;
    assert Apply(cfg, s, PassengerTurn(p, 0)).passengers[p] == r.next.0;
  }

  lemma ThreeGoOn(cfg: Config, s: State, e: nat)
    requires Sensible(cfg) && cfg.trips > 0 && Reachable(cfg, s) && 0 < e < CARS
    requires PassengersOf(e, cfg.passengers) == 3
    ensures Delivered(s, e) || CanGoOn(cfg, s, e)
  {
    if AllOnTrip(s, e) {
      ThreeAreSafe(cfg, s, e);
      DeliveredStuckOrGoingOn(cfg, s, e);
    } else {
      var p: nat :| p < |s.passengers| && CarOf(p) == e && !OnTrip(s.passengers[p]);
      ReachableInv(cfg, s);
      ReachableLastTrips(cfg, s);
      NotOnTripCanTurn(cfg, s, p);
      assert TurnOf(PassengerTurn(p, 0), e);
    }
  }

  lemma NobodyToDeliver(s: State, e: nat)
    requires e < CARS && PassengersOf(e, |s.passengers|) == 0
    ensures Delivered(s, e)
  {
    PassengersOfIs(e, |s.passengers|);
  }

  /** That at any time a car has delivered its passengers or one of its threads can go on
      holds exactly for a car without passengers, and for the last three cars with three. */
  lemma GoesOnExactlyWhen(cfg: Config, e: nat)
    requires Sensible(cfg) && cfg.trips > 0 && e < CARS
    ensures (forall s :: Reachable(cfg, s) ==> Delivered(s, e) || CanGoOn(cfg, s, e))
       <==> PassengersOf(e, cfg.passengers) == 0 || (e > 0 && PassengersOf(e, cfg.passengers) == 3)
  {
    if PassengersOf(e, cfg.passengers) == 0 || (e > 0 && PassengersOf(e, cfg.passengers) == 3) {
      forall s | Reachable(cfg, s)
        ensures Delivered(s, e) || CanGoOn(cfg, s, e)
      {
        ReachableInv(cfg, s);
        if PassengersOf(e, cfg.passengers) == 0 {
          NobodyToDeliver(s, e);
        } else {
          ThreeGoOn(cfg, s, e);
        }
      }
    } else {
      var s := StandstillExists(cfg, e);
    }
  }
}
