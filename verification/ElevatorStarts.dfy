/** What is known of a car before its first call: its `start` has counted everybody who is
    on a trip, and with fewer than three passengers it never begins. */
module ElevatorStarts {
  import opened Elevator
  import opened Census
  import opened ElevatorSafety
  import opened ElevatorDelivery

  // ---------------------------------------------------------------- how many have registered

  /** Passengers of car `e`, among the first `m`, who are on a trip they registered for. */
  function Registered(xs: seq<Passenger>, e: nat, m: nat): nat
    requires m <= |xs|
  {
    if m == 0 then 0 else Registered(xs, e, m - 1) + One(CarOf(m - 1) == e && OnTrip(xs[m - 1]))
  }

  lemma {:induction false} RegisteredAfterUpdate(xs: seq<Passenger>, e: nat, m: nat, p: nat, x: Passenger)
    requires m <= |xs| && p < |xs|
    ensures Registered(xs[p := x], e, m)
         == Registered(xs, e, m)
            + (if p < m && CarOf(p) == e then One(OnTrip(x)) - One(OnTrip(xs[p])) else 0)
  {
    if m > 0 {
      RegisteredAfterUpdate(xs, e, m - 1, p, x);
    }
  }

  lemma {:induction false} RegisteredAtMost(xs: seq<Passenger>, e: nat, m: nat)
    requires m <= |xs|
    ensures Registered(xs, e, m) <= PassengersOf(e, m)
    ensures (forall p | 0 <= p < m && CarOf(p) == e :: OnTrip(xs[p])) <==>
              Registered(xs, e, m) == PassengersOf(e, m)
    ensures (forall p | 0 <= p < m :: !OnTrip(xs[p])) ==> Registered(xs, e, m) == 0
  {
    if m > 0 {
      RegisteredAtMost(xs, e, m - 1);
    }
  }

  /** Each car's `start` has counted at least its passengers who are on a trip. */
  ghost predicate StartsCounted(s: State) {
    |s.cars| == CARS && forall e | 0 <= e < CARS :: StartCounted(s.cars[e], e, s.passengers)
  }

  predicate StartCounted(c: Car, e: nat, xs: seq<Passenger>) {
    c.start >= Registered(xs, e, |xs|)
  }

  /** The turn adds to `start` if it takes the passenger to a trip. */
  predicate Counts(x: Passenger, c: Car, r: Outcome<(Passenger, Car)>) {
    r.Go? ==> r.next.1.start >= c.start + One(OnTrip(r.next.0)) - One(OnTrip(x))
  }

  lemma RegisterStarts(cfg: Config, p: nat, x: Passenger, c: Car, stop: bool, pick: nat)
    requires Registering(x.pc)
    ensures Counts(x, c, RegisterStep(cfg, p, x, c, stop, pick))
  {
  }

  lemma StartStep(cfg: Config, p: nat, x: Passenger, c: Car, stop: bool, pick: nat)
    ensures Counts(x, c, PassengerStep(cfg, p, x, c, stop, pick))
  {
    if Registering(x.pc) {
      RegisterStarts(cfg, p, x, c, stop, pick);
    } else if x.pc.AwaitEntry? || Entering(x.pc) {
    } else if x.pc.AwaitExit? || Leaving(x.pc) {
    } else {
    }
  }

  lemma ElevatorKeepsStart(cfg: Config, e: nat, c: Car, xs: seq<Passenger>, stop: bool)
    ensures var r := ElevatorStep(cfg, e, c, xs, stop); r.Go? ==> r.next.start == c.start
  {
  }

  lemma StartAfterUpdate(xs: seq<Passenger>, c: Car, p: nat, x: Passenger, next: Car, e: nat)
    requires p < |xs| && StartCounted(c, e, xs)
    requires next.start >= c.start + (if CarOf(p) == e then One(OnTrip(x)) - One(OnTrip(xs[p])) else 0)
    ensures StartCounted(next, e, xs[p := x])
  {
    RegisteredAfterUpdate(xs, e, |xs|, p, x);
  }

  lemma StartTurn(cfg: Config, s: State, a: Action)
    requires StartsCounted(s)
    ensures StartsCounted(Apply(cfg, s, a))
  {
    var xs := s.passengers;
    match a
    case PassengerTurn(p, pick) =>
      if p < |xs| {
        var d := CarOf(p);
        var r := PassengerStep(cfg, p, xs[p], s.cars[d], s.stop, pick);
        StartStep(cfg, p, xs[p], s.cars[d], s.stop, pick);
        if r.Go? {
          var cars := s.cars[d := r.next.1];
          forall e | 0 <= e < CARS
            ensures StartCounted(cars[e], e, xs[p := r.next.0])
          {
            StartAfterUpdate(xs, s.cars[e], p, r.next.0, cars[e], e);
          }
        }
      }
    case ElevatorTurn(e) =>
      if e < CARS {
        ElevatorKeepsStart(cfg, e, s.cars[e], xs, s.stop);
      }
    case MainStops =>
  }

  lemma {:induction false} StartRun(cfg: Config, s: State, schedule: seq<Action>)
    requires StartsCounted(s)
    ensures StartsCounted(Run(cfg, s, schedule))
    decreases |schedule|
  {
    if schedule != [] {
      StartTurn(cfg, s, schedule[0]);
      StartRun(cfg, Apply(cfg, s, schedule[0]), schedule[1..]);
    }
  }

  lemma ReachableStarts(cfg: Config, s: State)
    requires cfg.trips > 0 && Reachable(cfg, s)
    ensures StartsCounted(s)
  {
    var s0, schedule :| Initial(cfg, s0) && s == Run(cfg, s0, schedule);
    forall p | 0 <= p < |s0.passengers|
      ensures !OnTrip(s0.passengers[p])
    {
      assert InitialPassenger(cfg, s0.passengers[p]);
    }
    forall e | 0 <= e < CARS
      ensures StartCounted(s0.cars[e], e, s0.passengers)
    {
      assert InitialCar(s0.cars[e]);
      RegisteredAtMost(s0.passengers, e, |s0.passengers|);
    }
    StartRun(cfg, s0, schedule);
  }

  // ---------------------------------------------------------------- further runs

  lemma {:induction false} RunConcat(cfg: Config, s: State, first: seq<Action>, second: seq<Action>)
    ensures Run(cfg, s, first + second) == Run(cfg, Run(cfg, s, first), second)
    decreases |first|
  {
    if first == [] {
      assert first + second == second;
    } else {
      assert (first + second)[1..] == first[1..] + second;
      RunConcat(cfg, Apply(cfg, s, first[0]), first[1..], second);
    }
  }

  lemma ReachableFurther(cfg: Config, s: State, schedule: seq<Action>)
    requires Reachable(cfg, s)
    ensures Reachable(cfg, Run(cfg, s, schedule))
  {
    var s0, first :| Initial(cfg, s0) && s == Run(cfg, s0, first);
    RunConcat(cfg, s0, first, schedule);
  }

  // ---------------------------------------------------------------- before the first call

  /** How often passengers of car `e` can get as far as being counted by it while the
      car has not moved. */
  function MostStarts(cfg: Config, e: nat): nat {
    if cfg.trips == 0 then 0 else PassengersOf(e, cfg.passengers)
  }

  /** The passenger has never got past the wait for its car. */
  predicate NotEntered(cfg: Config, x: Passenger) {
    if cfg.trips == 0 then x.trips == 0 && (x.pc.NextTrip? || x.pc.Finished?)
    else (Registering(x.pc) || x.pc.AwaitEntry?) && (x.pc.NextTrip? ==> x.trips > 0)
  }

  /** The car has never got past its gate. */
  predicate NotMoved(c: Car, e: nat, xs: seq<Passenger>) {
    && (c.pc.Top? || c.pc.Gate? || c.pc.Halted?) && !c.ready
    && 2 * c.start == Total(Owed, xs, e)
  }

  ghost predicate NotStarted(cfg: Config, s: State, e: nat) {
    && e < |s.cars| && NotMoved(s.cars[e], e, s.passengers)
    && forall p | 0 <= p < |s.passengers| && CarOf(p) == e :: NotEntered(cfg, s.passengers[p])
  }

  /** Whatever the number of floors: the program stops when all have finished, and where
      there are passengers there are floors. */
  ghost predicate Orderly(cfg: Config, s: State) {
    && |s.cars| == CARS && |s.passengers| == cfg.passengers
    && (s.stop ==> EveryoneFinished(s)) && (cfg.passengers > 0 ==> cfg.floors > 0)
  }

  lemma OrderlyAtFirst(cfg: Config, s: State)
    requires Initial(cfg, s)
    ensures Orderly(cfg, s)
  {
    if cfg.passengers > 0 {
      assert InitialPassenger(cfg, s.passengers[0]);
    }
  }

  lemma NotStartedAtFirst(cfg: Config, s: State, e: nat)
    requires Initial(cfg, s) && e < CARS
    ensures NotStarted(cfg, s, e)
  {
    forall p | 0 <= p < |s.passengers|
      ensures s.passengers[p].pc.NextTrip? && NotEntered(cfg, s.passengers[p])
    {
      assert InitialPassenger(cfg, s.passengers[p]);
    }
    assert InitialCar(s.cars[e]);
    NobodyCounts(Owed, s.passengers, e, |s.passengers|);
  }

  lemma FinishedStays(cfg: Config, s: State, a: Action)
    requires EveryoneFinished(s)
    ensures EveryoneFinished(Apply(cfg, s, a))
  {
  }

  lemma OrderlyTurn(cfg: Config, s: State, a: Action)
    requires Orderly(cfg, s)
    ensures Orderly(cfg, Apply(cfg, s, a))
  {
    if s.stop {
      FinishedStays(cfg, s, a);
    }
  }

  lemma StartsBounded(cfg: Config, s: State, e: nat)
    requires NotStarted(cfg, s, e) && |s.passengers| == cfg.passengers
    ensures s.cars[e].start <= MostStarts(cfg, e)
  {
    if cfg.trips == 0 {
      NobodyCounts(Owed, s.passengers, e, |s.passengers|);
    } else {
      AtMostTwoOwedEach(s.passengers, e, |s.passengers|);
    }
  }

  /** What a passenger's turn may do to one that has not entered. */
  predicate StaysOut(cfg: Config, x: Passenger, c: Car, r: Outcome<(Passenger, Car)>) {
    && !r.Fail?
    && (r.Go? ==>
          var (y, d) := r.next;
          && NotEntered(cfg, y) && d.pc == c.pc && !d.ready
          && 2 * d.start == 2 * c.start + Weight(Owed, y.pc) - Weight(Owed, x.pc))
  }

  lemma RestingRegister(cfg: Config, p: nat, x: Passenger, c: Car, stop: bool, pick: nat)
    requires NotEntered(cfg, x) && !c.ready && Registering(x.pc)
    requires (stop ==> x.pc.Finished?) && cfg.floors > 0
    ensures StaysOut(cfg, x, c, RegisterStep(cfg, p, x, c, stop, pick))
  {
  }

  lemma RestingStep(cfg: Config, p: nat, x: Passenger, c: Car, stop: bool, pick: nat)
    requires NotEntered(cfg, x) && !c.ready
    requires (stop ==> x.pc.Finished?) && cfg.floors > 0
    ensures StaysOut(cfg, x, c, PassengerStep(cfg, p, x, c, stop, pick))
  {
    if Registering(x.pc) {
      RestingRegister(cfg, p, x, c, stop, pick);
    } else if x.pc.AwaitEntry? {
      assert EntryStep(p, x, c).Wait?;
    } else {
      assert ArrivalStep(x, c).Wait?;
    }
  }

  lemma RestingPassengerTurn(cfg: Config, s: State, p: nat, pick: nat)
    requires Orderly(cfg, s) && NotStarted(cfg, s, CarOf(p)) && p < |s.passengers|
    ensures var t := Apply(cfg, s, PassengerTurn(p, pick));
      NotStarted(cfg, t, CarOf(p)) && t.ended == s.ended
  {
    var e, xs := CarOf(p), s.passengers;
    RestingStep(cfg, p, xs[p], s.cars[e], s.stop, pick);
    var r := PassengerStep(cfg, p, xs[p], s.cars[e], s.stop, pick);
    if r.Go? {
      SumAfterUpdate(Owed, xs, e, |xs|, p, r.next.0);
    }
  }

  /** A turn of some other thread is nothing to a car. */
  lemma OtherTurn(cfg: Config, s: State, p: nat, pick: nat, e: nat)
    requires e < |s.cars| && CarOf(p) != e && NotStarted(cfg, s, e)
    ensures NotStarted(cfg, Apply(cfg, s, PassengerTurn(p, pick)), e)
  {
    if p < |s.passengers| && CarOf(p) < |s.cars| {
      var r := PassengerStep(cfg, p, s.passengers[p], s.cars[CarOf(p)], s.stop, pick);
      if r.Go? {
        SumAfterUpdate(Owed, s.passengers, e, |s.passengers|, p, r.next.0);
      }
    }
  }

  lemma RestingElevatorTurn(cfg: Config, s: State, e: nat)
    requires Orderly(cfg, s) && NotStarted(cfg, s, e) && MostStarts(cfg, e) < 3
    ensures var t := Apply(cfg, s, ElevatorTurn(e)); NotStarted(cfg, t, e) && t.ended == s.ended
  {
    StartsBounded(cfg, s, e);
  }

  lemma NotStartedTurn(cfg: Config, s: State, a: Action, e: nat)
    requires Orderly(cfg, s) && NotStarted(cfg, s, e) && MostStarts(cfg, e) < 3
    ensures NotStarted(cfg, Apply(cfg, s, a), e)
  {
    match a
    case PassengerTurn(p, pick) =>
      if CarOf(p) != e {
        OtherTurn(cfg, s, p, pick, e);
      } else if p < |s.passengers| {
        RestingPassengerTurn(cfg, s, p, pick);
      }
    case ElevatorTurn(d) =>
      if d == e {
        RestingElevatorTurn(cfg, s, e);
      }
    case MainStops =>
  }

  lemma {:induction false} StillWaiting(cfg: Config, s: State, schedule: seq<Action>, e: nat)
    requires Orderly(cfg, s) && NotStarted(cfg, s, e) && MostStarts(cfg, e) < 3
    ensures Orderly(cfg, Run(cfg, s, schedule)) && NotStarted(cfg, Run(cfg, s, schedule), e)
    decreases |schedule|
  {
    if schedule != [] {
      OrderlyTurn(cfg, s, schedule[0]);
      NotStartedTurn(cfg, s, schedule[0], e);
      StillWaiting(cfg, Apply(cfg, s, schedule[0]), schedule[1..], e);
    }
  }

  /** A car with fewer than three passengers, or with no trips to be made, never starts its
      first call, in a building of any height. */
  lemma NeverStarts(cfg: Config, s: State, e: nat)
    requires Reachable(cfg, s) && e < CARS && MostStarts(cfg, e) < 3
    ensures NotStarted(cfg, s, e)
  {
    var s0, schedule :| Initial(cfg, s0) && s == Run(cfg, s0, schedule);
    OrderlyAtFirst(cfg, s0);
    NotStartedAtFirst(cfg, s0, e);
    StillWaiting(cfg, s0, schedule, e);
  }

  /** So its passengers are never let in. */
  lemma FewerThanThreeWaitForEver(cfg: Config, s: State, e: nat)
    requires cfg.trips > 0 && Reachable(cfg, s)
    requires e < CARS && PassengersOf(e, cfg.passengers) < 3
    ensures e < |s.cars| && (s.cars[e].pc.Top? || s.cars[e].pc.Gate? || s.cars[e].pc.Halted?)
    ensures forall p | 0 <= p < |s.passengers| && CarOf(p) == e ::
              Registering(s.passengers[p].pc) || s.passengers[p].pc.AwaitEntry?
  {
    NeverStarts(cfg, s, e);
  }
}
