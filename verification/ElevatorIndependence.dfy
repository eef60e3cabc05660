/** The four cars do not affect each other, although each scans the records of all
    passengers: any run is one run per car, in any interleaving. The exception is car 0
    while it scans records that other cars' passengers have still to write. */
module ElevatorIndependence {
  import opened Elevator
  import opened ElevatorSafety
  import opened ElevatorDelivery
  import opened ElevatorProgress
  import opened ElevatorStarts
  import opened ElevatorPhantom
  import opened ElevatorAim

  /** No record but those of its own passengers names car `e`. */
  ghost predicate Private(s: State, e: nat) {
    forall p | 0 <= p < |s.passengers| && CarOf(p) != e :: s.passengers[p].elevator != e
  }

  lemma PrivateStays(cfg: Config, s: State, a: Action, e: nat)
    requires Private(s, e)
    ensures Private(Apply(cfg, s, a), e)
  {
    if a.PassengerTurn? && a.p < |s.passengers| && CarOf(a.p) < |s.cars| {
      RecordStep(cfg, a.p, s.passengers[a.p], s.cars[CarOf(a.p)], s.stop, a.pick);
    }
  }

  /** For all cars but car 0 that is so at any time. */
  lemma AlwaysPrivate(cfg: Config, s: State, e: nat)
    requires Reachable(cfg, s) && e > 0
    ensures Private(s, e)
  {
    var s0, schedule :| Initial(cfg, s0) && s == Run(cfg, s0, schedule);
    assert forall p | 0 <= p < |s0.passengers| :: InitialPassenger(cfg, s0.passengers[p]);
    NamesRun(cfg, s0, schedule);
  }

  /** The car is not looking at records that might be taken for those of its passengers. */
  ghost predicate Undisturbed(s: State, e: nat) {
    e < |s.cars| && s.cars[e].pc.ScanWaiters? ==> Private(s, e)
  }

  /** What car `e` and its passengers can see is the same in both states. */
  ghost predicate SameView(s: State, t: State, e: nat) {
    && |s.cars| == |t.cars| && |s.passengers| == |t.passengers| && s.stop == t.stop
    && (e < |s.cars| ==> s.cars[e] == t.cars[e])
    && (forall p | 0 <= p < |s.passengers| && CarOf(p) == e :: s.passengers[p] == t.passengers[p])
  }

  /** States the lemmas about runs speak of. */
  ghost predicate Good(cfg: Config, s: State) {
    Sensible(cfg) && Inv(cfg, s) && forall e | 0 <= e < CARS :: Private(s, e)
  }

  lemma GoodTurn(cfg: Config, s: State, a: Action)
    requires Good(cfg, s)
    ensures Good(cfg, Apply(cfg, s, a))
  {
    TurnKeepsInv(cfg, s, a);
    forall e | 0 <= e < CARS
      ensures Private(Apply(cfg, s, a), e)
    {
      PrivateStays(cfg, s, a, e);
    }
  }

  /** A turn of one car's threads is invisible to every other car. */
  lemma Unseen(cfg: Config, s: State, a: Action, e: nat)
    requires !TurnOf(a, e) && !a.MainStops?
    ensures SameView(Apply(cfg, s, a), s, e)
  {
  }

  /** Its own threads act on what the car sees, and on nothing else. */
  lemma SamePlan(cfg: Config, e: nat, c: Car, xs: seq<Passenger>, ys: seq<Passenger>)
    requires |xs| == |ys| && ListOk(e, c.riding, |xs|)
    requires forall p | 0 <= p < |xs| && CarOf(p) == e :: xs[p] == ys[p]
    requires c.pc.ScanWaiters? ==>
               forall p | 0 <= p < |xs| && CarOf(p) != e :: xs[p].elevator != e && ys[p].elevator != e
    ensures PlanStep(cfg, e, c, xs) == PlanStep(cfg, e, c, ys)
  {
    assert forall i | 0 <= i < |c.riding| :: c.riding[i] in c.riding;
    if c.pc.ScanWaiters? && c.i < |xs| {
      assert AsksFor(xs[c.i], e) <==> AsksFor(ys[c.i], e);
    }
  }

  lemma SameElevatorTurn(cfg: Config, s: State, t: State, e: nat)
    requires SameView(s, t, e) && e < |s.cars| && ListOk(e, s.cars[e].riding, |s.passengers|) && s.ended == t.ended
    requires Undisturbed(s, e) && Undisturbed(t, e)
    ensures SameView(Apply(cfg, s, ElevatorTurn(e)), Apply(cfg, t, ElevatorTurn(e)), e)
  {
    SamePlan(cfg, e, s.cars[e], s.passengers, t.passengers);
    assert ElevatorStep(cfg, e, s.cars[e], s.passengers, s.stop)
        == ElevatorStep(cfg, e, t.cars[e], t.passengers, t.stop);
  }

  lemma SamePassengerTurn(cfg: Config, s: State, t: State, p: nat, pick: nat)
    requires SameView(s, t, CarOf(p)) && s.ended == t.ended
    ensures SameView(Apply(cfg, s, PassengerTurn(p, pick)), Apply(cfg, t, PassengerTurn(p, pick)), CarOf(p))
  {
    if p < |s.passengers| {
      assert s.passengers[p] == t.passengers[p];
    }
  }

  lemma SameTurn(cfg: Config, s: State, t: State, a: Action, e: nat)
    requires Inv(cfg, s) && Inv(cfg, t) && SameView(s, t, e) && TurnOf(a, e) && e < CARS
    requires Undisturbed(s, e) && Undisturbed(t, e)
    ensures SameView(Apply(cfg, s, a), Apply(cfg, t, a), e)
  {
    if a.ElevatorTurn? {
      SameElevatorTurn(cfg, s, t, e);
    } else {
      SamePassengerTurn(cfg, s, t, a.p, a.pick);
    }
  }

  /** The turns of a schedule taken by threads of car `e`, in order. */
  function TurnsOf(schedule: seq<Action>, e: nat): seq<Action> {
    if schedule == [] then []
    else (if TurnOf(schedule[0], e) then [schedule[0]] else []) + TurnsOf(schedule[1..], e)
  }

  /** Only passenger and elevator threads run. */
  ghost predicate ThreadsOnly(schedule: seq<Action>) {
    forall a | a in schedule :: !a.MainStops?
  }

  /** To car `e`, a run looks as if only its own threads had run. */
  lemma {:induction false} OwnRun(cfg: Config, s: State, t: State, schedule: seq<Action>, e: nat)
    requires Good(cfg, s) && Good(cfg, t) && SameView(s, t, e) && ThreadsOnly(schedule) && e < CARS
    ensures Good(cfg, Run(cfg, s, schedule)) && Good(cfg, Run(cfg, t, TurnsOf(schedule, e)))
    ensures SameView(Run(cfg, s, schedule), Run(cfg, t, TurnsOf(schedule, e)), e)
    decreases |schedule|
  {
    if schedule != [] {
      var a, rest := schedule[0], schedule[1..];
      GoodTurn(cfg, s, a);
      if TurnOf(a, e) {
        GoodTurn(cfg, t, a);
        SameTurn(cfg, s, t, a, e);
        assert TurnsOf(schedule, e)[1..] == TurnsOf(rest, e);
        OwnRun(cfg, Apply(cfg, s, a), Apply(cfg, t, a), rest, e);
      } else {
        Unseen(cfg, s, a, e);
        assert TurnsOf(schedule, e) == TurnsOf(rest, e);
        OwnRun(cfg, Apply(cfg, s, a), t, rest, e);
      }
    }
  }

  lemma SameToAllIsSame(cfg: Config, s: State, t: State)
    requires Inv(cfg, s) && Inv(cfg, t)
    requires forall e | 0 <= e < CARS :: SameView(s, t, e)
    ensures s == t
  {
    forall p | 0 <= p < |s.passengers|
      ensures s.passengers[p] == t.passengers[p]
    {
      assert SameView(s, t, CarOf(p));
    }
    assert SameView(s, t, 0);
    assert forall e | 0 <= e < CARS :: SameView(s, t, e) ==> s.cars[e] == t.cars[e];
    assert s.cars == t.cars && s.passengers == t.passengers;
  }

  /** Two schedules in which each car's threads take the same turns in the same
      order, however the cars are interleaved, end in the same state. */
  lemma InterleavingIsIrrelevant(cfg: Config, s: State, one: seq<Action>, other: seq<Action>)
    requires Good(cfg, s) && ThreadsOnly(one) && ThreadsOnly(other)
    requires forall e | 0 <= e < CARS :: TurnsOf(one, e) == TurnsOf(other, e)
    ensures Run(cfg, s, one) == Run(cfg, s, other)
  {
    forall e | 0 <= e < CARS
      ensures SameView(Run(cfg, s, one), Run(cfg, s, other), e)
    {
      OwnRun(cfg, s, s, one, e);
      OwnRun(cfg, s, s, other, e);
    }
    OwnRun(cfg, s, s, one, 0);
    OwnRun(cfg, s, s, other, 0);
    SameToAllIsSame(cfg, Run(cfg, s, one), Run(cfg, s, other));
  }

  // ---------------------------------------------------------------- single turns

  ghost predicate Commute(cfg: Config, s: State, a: Action, b: Action) {
    Apply(cfg, Apply(cfg, s, a), b) == Apply(cfg, Apply(cfg, s, b), a)
  }

  /** Seen from the car whose thread takes the turn `a`, a turn of another does not matter. */
  lemma SameEitherWay(cfg: Config, s: State, a: Action, b: Action, d: nat)
    requires Sensible(cfg) && Inv(cfg, s) && Undisturbed(s, d) && d < CARS
    requires TurnOf(a, d) && !TurnOf(b, d) && !b.MainStops?
    ensures SameView(Apply(cfg, Apply(cfg, s, a), b), Apply(cfg, Apply(cfg, s, b), a), d)
  {
    var t, u := Apply(cfg, s, a), Apply(cfg, s, b);
    TurnKeepsInv(cfg, s, a);
    TurnKeepsInv(cfg, s, b);
    Unseen(cfg, s, b, d);
    Unseen(cfg, t, b, d);
    if s.cars[d].pc.ScanWaiters? {
      PrivateStays(cfg, s, b, d);
    }
    SameTurn(cfg, s, u, a, d);
  }

  lemma UnseenEitherWay(cfg: Config, s: State, a: Action, b: Action, f: nat)
    requires !TurnOf(a, f) && !TurnOf(b, f) && !a.MainStops? && !b.MainStops?
    ensures SameView(Apply(cfg, Apply(cfg, s, a), b), Apply(cfg, Apply(cfg, s, b), a), f)
  {
    Unseen(cfg, s, a, f);
    Unseen(cfg, Apply(cfg, s, a), b, f);
    Unseen(cfg, s, b, f);
    Unseen(cfg, Apply(cfg, s, b), a, f);
  }

  lemma UndisturbedCommute(cfg: Config, s: State, a: Action, b: Action, d: nat, e: nat)
    requires Sensible(cfg) && Inv(cfg, s) && Undisturbed(s, d) && Undisturbed(s, e)
    requires TurnOf(a, d) && TurnOf(b, e) && d != e
    ensures Commute(cfg, s, a, b)
  {
    var one, other := Apply(cfg, Apply(cfg, s, a), b), Apply(cfg, Apply(cfg, s, b), a);
    forall f | 0 <= f < CARS
      ensures SameView(one, other, f)
    {
      if f == d {
        SameEitherWay(cfg, s, a, b, d);
      } else if f == e {
        SameEitherWay(cfg, s, b, a, e);
        assert SameView(other, one, f);
      } else {
        UnseenEitherWay(cfg, s, a, b, f);
      }
    }
    TurnKeepsInv(cfg, s, a);
    TurnKeepsInv(cfg, Apply(cfg, s, a), b);
    TurnKeepsInv(cfg, s, b);
    TurnKeepsInv(cfg, Apply(cfg, s, b), a);
    SameToAllIsSame(cfg, one, other);
  }

  /** Turns of threads of two different cars commute. Only for car 0 something is asked:
      not to be scanning records that may yet turn out to be another car's. */
  lemma CarsCommute(cfg: Config, s: State, a: Action, b: Action, d: nat, e: nat)
    requires Sensible(cfg) && Reachable(cfg, s)
    requires TurnOf(a, d) && TurnOf(b, e) && d != e
    requires d == 0 || e == 0 ==> Undisturbed(s, 0)
    ensures Commute(cfg, s, a, b)
  {
    ReachableInv(cfg, s);
    if d > 0 {
      AlwaysPrivate(cfg, s, d);
    }
    if e > 0 {
      AlwaysPrivate(cfg, s, e);
    }
    UndisturbedCommute(cfg, s, a, b, d, e);
  }

  /** Any two turns of threads of different cars commute in `s`. */
  ghost predicate AllCommute(cfg: Config, s: State) {
    forall a, b, d, e | TurnOf(a, d) && TurnOf(b, e) && d != e :: Commute(cfg, s, a, b)
  }

  /** That is so at any time exactly if car 0 has too few passengers, or they have too few
      trips, for it ever to scan a record. */
  lemma CommuteExactlyWhen(cfg: Config)
    requires Sensible(cfg)
    ensures (forall s :: Reachable(cfg, s) ==> AllCommute(cfg, s)) <==> cfg.trips == 0 || cfg.passengers < 9
  {
    PassengersOfIs(0, cfg.passengers);
    if cfg.trips == 0 || cfg.passengers < 9 {
      forall s | Reachable(cfg, s)
        ensures AllCommute(cfg, s)
      {
        NeverStarts(cfg, s, 0);
        forall a, b, d, e | TurnOf(a, d) && TurnOf(b, e) && d != e
          ensures Commute(cfg, s, a, b)
        {
          CarsCommute(cfg, s, a, b, d, e);
        }
      }
    } else {
      var s := UnwrittenRecordsInterfere(cfg);
      assert TurnOf(ElevatorTurn(0), 0) && TurnOf(PassengerTurn(1, 0), 1);
      assert !Commute(cfg, s, ElevatorTurn(0), PassengerTurn(1, 0));
    }
  }

  // ---------------------------------------------------------------- one run per car

  lemma {:induction false} TurnsOfConcat(one: seq<Action>, other: seq<Action>, e: nat)
    ensures TurnsOf(one + other, e) == TurnsOf(one, e) + TurnsOf(other, e)
  {
    if one == [] {
      assert one + other == other;
    } else {
      assert (one + other)[1..] == one[1..] + other && (one + other)[0] == one[0];
      TurnsOfConcat(one[1..], other, e);
      var first := if TurnOf(one[0], e) then [one[0]] else [];
      assert first + (TurnsOf(one[1..], e) + TurnsOf(other, e)) == (first + TurnsOf(one[1..], e)) + TurnsOf(other, e);
    }
  }

  lemma {:induction false} TurnsOfTurnsOf(schedule: seq<Action>, d: nat, e: nat)
    ensures TurnsOf(TurnsOf(schedule, d), e) == if d == e then TurnsOf(schedule, d) else []
    ensures forall a | a in TurnsOf(schedule, d) :: a in schedule
  {
    if schedule != [] {
      var rest := TurnsOf(schedule[1..], d);
      TurnsOfTurnsOf(schedule[1..], d, e);
      if TurnOf(schedule[0], d) {
        assert ([schedule[0]] + rest)[1..] == rest;
      } else {
        assert TurnsOf(schedule, d) == rest;
      }
    }
  }

  /** The turns of each car, one car after the other. */
  function Apart(schedule: seq<Action>): seq<Action> {
    ((TurnsOf(schedule, 0) + TurnsOf(schedule, 1)) + TurnsOf(schedule, 2)) + TurnsOf(schedule, 3)
  }

  lemma ApartKeepsTurns(schedule: seq<Action>, e: nat)
    requires e < CARS
    ensures TurnsOf(Apart(schedule), e) == TurnsOf(schedule, e)
  {
    var r0, r1, r2, r3 := TurnsOf(schedule, 0), TurnsOf(schedule, 1), TurnsOf(schedule, 2), TurnsOf(schedule, 3);
    TurnsOfConcat((r0 + r1) + r2, r3, e);
    TurnsOfConcat(r0 + r1, r2, e);
    TurnsOfConcat(r0, r1, e);
    TurnsOfTurnsOf(schedule, 0, e);
    TurnsOfTurnsOf(schedule, 1, e);
    TurnsOfTurnsOf(schedule, 2, e);
    TurnsOfTurnsOf(schedule, 3, e);
  }

  lemma ApartIsThreadsOnly(schedule: seq<Action>)
    requires ThreadsOnly(schedule)
    ensures ThreadsOnly(Apart(schedule))
  {
    TurnsOfTurnsOf(schedule, 0, 0);
    TurnsOfTurnsOf(schedule, 1, 0);
    TurnsOfTurnsOf(schedule, 2, 0);
    TurnsOfTurnsOf(schedule, 3, 0);
  }

  /** Once all records of other cars' passengers name their own cars, every run of the
      whole system is one run of each car after the other. */
  lemma OneRunPerCar(cfg: Config, s: State, schedule: seq<Action>)
    requires Sensible(cfg) && Reachable(cfg, s) && Private(s, 0) && ThreadsOnly(schedule)
    ensures Run(cfg, s, schedule)
         == Run(cfg, Run(cfg, Run(cfg, Run(cfg, s, TurnsOf(schedule, 0)), TurnsOf(schedule, 1)),
                         TurnsOf(schedule, 2)), TurnsOf(schedule, 3))
  {
    var r0, r1, r2, r3 := TurnsOf(schedule, 0), TurnsOf(schedule, 1), TurnsOf(schedule, 2), TurnsOf(schedule, 3);
    RunConcat(cfg, s, (r0 + r1) + r2, r3);
    RunConcat(cfg, s, r0 + r1, r2);
    RunConcat(cfg, s, r0, r1);
    SameApart(cfg, s, schedule);
  }

  lemma SameApart(cfg: Config, s: State, schedule: seq<Action>)
    requires Sensible(cfg) && Reachable(cfg, s) && Private(s, 0) && ThreadsOnly(schedule)
    ensures Run(cfg, s, schedule) == Run(cfg, s, Apart(schedule))
  {
    ReachableInv(cfg, s);
    forall e | 0 <= e < CARS
      ensures Private(s, e) && TurnsOf(schedule, e) == TurnsOf(Apart(schedule), e)
    {
      if e > 0 {
        AlwaysPrivate(cfg, s, e);
      }
      ApartKeepsTurns(schedule, e);
    }
    ApartIsThreadsOnly(schedule);
    InterleavingIsIrrelevant(cfg, s, schedule, Apart(schedule));
  }

  /** The record of a passenger who is on a trip, or back from the last one, names its own
      car, so car 0 is undisturbed while all passengers of the other cars are. */
  lemma RegisteredOnRecord(cfg: Config, s: State)
    requires Sensible(cfg) && cfg.trips > 0 && Reachable(cfg, s)
    ensures forall p | 0 <= p < |s.passengers| && OnTrip(s.passengers[p]) ::
              s.passengers[p].elevator == CarOf(p)
    ensures (forall p | 0 <= p < |s.passengers| && CarOf(p) != 0 :: OnTrip(s.passengers[p])) ==> Private(s, 0)
    ensures (forall p | 0 <= p < |s.passengers| ::
               if CarOf(p) == 0 then IsRegistered(s.passengers[p]) else OnTrip(s.passengers[p])) ==>
              RegisteredFor(s, 0)
  {
    ReachableLastTrips(cfg, s);
    ReachableMet(cfg, s);
    forall p | 0 <= p < |s.passengers| && OnTrip(s.passengers[p])
      ensures s.passengers[p].elevator == CarOf(p)
    {
      assert LastTrip(p, s.passengers[p]) && RecordOk(p, s.passengers[p]);
    }
  }
}
