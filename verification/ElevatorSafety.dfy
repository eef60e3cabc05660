/** No run of the elevator system ever ends in a violation. */
module ElevatorSafety {
  import opened NearestTarget
  import opened Elevator
  import opened Census

  // ---------------------------------------------------------------- the invariant

  predicate IsTarget(cfg: Config, f: int) {
    f == NO_TARGET || IsFloor(cfg, f)
  }

  predicate PassengerOk(cfg: Config, p: nat, x: Passenger) {
    && IsFloor(cfg, x.origin) && IsFloor(cfg, x.destination) && IsFloor(cfg, x.from) && IsFloor(cfg, x.to)
    && (Registering(x.pc) && !x.pc.NextTrip? ==> x.state == WAITING)
    && (x.pc.AwaitEntry? || BeforeEntry(x.pc) ==> x.state == WAITING)
    && (Is(Aboard, x.pc) <==> x.state == ENTERED)
    && (Is(Aboard, x.pc) ==> x.inside == CarOf(p))
    && (AfterExit(x.pc) || x.pc.CheckArrival? || x.pc.MoveOrigin? ==>
          x.state == EXITED && x.at == x.destination)
  }

  predicate CarOk(cfg: Config, c: Car) {
    && IsFloor(cfg, c.floor) && IsTarget(cfg, c.waitAt) && (c.direction == 1 || c.direction == -1)
    && IsFloor(cfg, c.refFloor)
    && c.refFloor == (if c.pc == Settle then c.floor + c.direction else c.floor)
    && (!Outside(c.pc) ==> c.at == c.floor)
    && (!Outside(c.pc) && !c.pc.Gate? ==>
          (c.at == 0 ==> c.direction == 1) && (c.at == cfg.floors - 1 ==> c.direction == -1))
    && (c.pc.ScanRiders? || c.pc.ScanWaiters? || c.pc.SetTarget? ==> IsTarget(cfg, c.closest))
    && (c.open <==> DoorOpen(c.pc))
    && (c.ready ==> c.pc == AwaitPassenger)
    && (c.passengerReady ==> Serving(c.pc))
    && (c.pc == ClearReady ==> c.passengerReady)
  }

  /** What ties a passenger to its car: it acts at the right floor, and it is on
      the riding list exactly between its two list operations. */
  predicate Tied(p: nat, x: Passenger, c: Car) {
    && (Entering(x.pc) ==> x.origin == c.floor)
    && (Leaving(x.pc) ==> x.destination == c.floor)
    && (p in c.riding <==> Is(Listed, x.pc))
  }

  function One(b: bool): nat {
    if b then 1 else 0
  }

  /** The token is in one place exactly while the car serves, the three counters
      each follow their own count, and no more than three places are taken. */
  predicate CountsOk(c: Car, t: Tally) {
    && One(c.ready) + t.holding + One(c.passengerReady) == One(Serving(c.pc))
    && c.aboard == t.aboard && c.count == t.counted && |c.riding| == t.listed
    && t.booked <= CAPACITY
  }

  predicate Distinct(s: seq<nat>) {
    forall i, j | 0 <= i < j < |s| :: s[i] != s[j]
  }

  /** The riding list of car `e` names passengers of that car, each once. */
  predicate ListOk(e: nat, riding: seq<nat>, passengers: nat) {
    && Distinct(riding)
    && (forall r | r in riding :: r < passengers && CarOf(r) == e)
  }

  ghost predicate Inv(cfg: Config, s: State) {
    && |s.cars| == CARS && |s.passengers| == cfg.passengers && s.ended == None
    && (s.stop ==> EveryoneFinished(s))
    && (forall e | 0 <= e < CARS :: s.cars[e].pc.Halted? ==> s.stop)
    && (forall p | 0 <= p < |s.passengers| :: PassengerOk(cfg, p, s.passengers[p]))
    && (forall p | 0 <= p < |s.passengers| :: Tied(p, s.passengers[p], s.cars[CarOf(p)]))
    && (forall e | 0 <= e < CARS :: CarOk(cfg, s.cars[e]))
    && (forall e | 0 <= e < CARS :: CountsOk(s.cars[e], TallyOf(s.passengers, e)))
    && (forall e | 0 <= e < CARS :: ListOk(e, s.cars[e].riding, |s.passengers|))
  }

  // ---------------------------------------------------------------- it holds at first

  lemma PassengerAtFirst(cfg: Config, p: nat, x: Passenger, c: Car)
    requires Sensible(cfg) && InitialPassenger(cfg, x) && InitialCar(c)
    ensures x.pc == NextTrip && PassengerOk(cfg, p, x) && Tied(p, x, c)
  {
  }

  lemma TallyAtFirst(xs: seq<Passenger>, e: nat)
    requires forall p | 0 <= p < |xs| :: xs[p].pc == NextTrip
    ensures TallyOf(xs, e) == Tally(0, 0, 0, 0, 0)
  {
    NobodyCounts(Holding, xs, e, |xs|);
    NobodyCounts(Booked, xs, e, |xs|);
    NobodyCounts(Aboard, xs, e, |xs|);
    NobodyCounts(Counted, xs, e, |xs|);
    NobodyCounts(Listed, xs, e, |xs|);
  }

  lemma EmptyList(e: nat, riding: seq<nat>, passengers: nat)
    requires |riding| == 0
    ensures ListOk(e, riding, passengers)
  {
  }

  lemma CarAtFirst(cfg: Config, e: nat, c: Car, t: Tally, passengers: nat)
    requires Sensible(cfg) && InitialCar(c) && t == Tally(0, 0, 0, 0, 0)
    ensures CarOk(cfg, c) && CountsOk(c, t) && ListOk(e, c.riding, passengers)
  {
    EmptyList(e, c.riding, passengers);
  }

  lemma InvAtFirst(cfg: Config, s: State)
    requires Sensible(cfg) && Initial(cfg, s)
    ensures Inv(cfg, s)
  {
    var xs := s.passengers;
    forall p | 0 <= p < |xs|
      ensures xs[p].pc == NextTrip && PassengerOk(cfg, p, xs[p]) && Tied(p, xs[p], s.cars[CarOf(p)])
    {
      PassengerAtFirst(cfg, p, xs[p], s.cars[CarOf(p)]);
    }
    forall e | 0 <= e < CARS
      ensures CarOk(cfg, s.cars[e]) && CountsOk(s.cars[e], TallyOf(xs, e)) && ListOk(e, s.cars[e].riding, |xs|)
    {
      TallyAtFirst(xs, e);
      CarAtFirst(cfg, e, s.cars[e], TallyOf(xs, e), |xs|);
    }
  }

  // ---------------------------------------------------------------- elevator turns keep it

  /** What a turn of the elevator thread must leave behind. */
  ghost predicate ElevatorOutcomeOk(cfg: Config, c: Car, t: Tally, r: Outcome<Car>) {
    && !r.Fail?
    && (r.Go? ==>
          && CarOk(cfg, r.next) && CountsOk(r.next, t)
          && (r.next.pc.Halted? ==> c.pc.Top?)
          && r.next.riding == c.riding
          && (r.next.floor != c.floor ==> t.holding == 0))
  }

  lemma SteerStepOk(cfg: Config, e: nat, c: Car, t: Tally, xs: seq<Passenger>)
    requires Sensible(cfg) && CarOk(cfg, c) && CountsOk(c, t)
    requires c.pc.SetTarget? || c.pc.SteerUp? || c.pc.SteerDown? || c.pc.Decide?
    ensures ElevatorOutcomeOk(cfg, c, t, PlanStep(cfg, e, c, xs))
  {
  }

  lemma PlanStepOk(cfg: Config, e: nat, c: Car, t: Tally, xs: seq<Passenger>)
    requires Sensible(cfg) && CarOk(cfg, c) && CountsOk(c, t)
    requires Planning(c.pc)
    requires forall p | 0 <= p < |xs| :: PassengerOk(cfg, p, xs[p])
    ensures ElevatorOutcomeOk(cfg, c, t, PlanStep(cfg, e, c, xs))
  {
    if c.pc.SetTarget? || c.pc.SteerUp? || c.pc.SteerDown? || c.pc.Decide? {
      SteerStepOk(cfg, e, c, t, xs);
    }
  }

  lemma DoorStepOk(cfg: Config, e: nat, c: Car, t: Tally)
    requires Sensible(cfg) && CarOk(cfg, c) && CountsOk(c, t) && Consistent(t)
    requires !Planning(c.pc) && !Moving(c.pc) && !Outside(c.pc)
    ensures ElevatorOutcomeOk(cfg, c, t, DoorStep(e, c))
  {
  }

  lemma MoveStepOk(cfg: Config, e: nat, c: Car, t: Tally)
    requires Sensible(cfg) && CarOk(cfg, c) && CountsOk(c, t) && Consistent(t)
    requires Moving(c.pc)
    ensures ElevatorOutcomeOk(cfg, c, t, MoveStep(cfg, e, c))
  {
  }

  lemma ElevatorStepOk(cfg: Config, e: nat, c: Car, t: Tally, xs: seq<Passenger>, stop: bool)
    requires Sensible(cfg) && CarOk(cfg, c) && CountsOk(c, t) && Consistent(t)
    requires forall p | 0 <= p < |xs| :: PassengerOk(cfg, p, xs[p])
    ensures ElevatorOutcomeOk(cfg, c, t, ElevatorStep(cfg, e, c, xs, stop))
  {
    if Planning(c.pc) {
      PlanStepOk(cfg, e, c, t, xs);
    } else if Moving(c.pc) {
      MoveStepOk(cfg, e, c, t);
    } else if !Outside(c.pc) {
      DoorStepOk(cfg, e, c, t);
    }
  }

  lemma TiedToChanged(xs: seq<Passenger>, e: nat, c: Car, next: Car)
    requires forall p | 0 <= p < |xs| && CarOf(p) == e :: Tied(p, xs[p], c)
    requires next.riding == c.riding && (next.floor != c.floor ==> Total(Holding, xs, e) == 0)
    ensures forall p | 0 <= p < |xs| && CarOf(p) == e :: Tied(p, xs[p], next)
  {
    forall p | 0 <= p < |xs| && CarOf(p) == e
      ensures Tied(p, xs[p], next)
    {
      assert Tied(p, xs[p], c);
      if next.floor != c.floor {
        NobodyHolds(xs, e, p);
      }
    }
  }

  /** Putting back one car keeps the invariant if it does so locally. */
  lemma CarChangeKeepsInv(cfg: Config, s: State, e: nat, c: Car)
    requires Inv(cfg, s) && e < CARS
    requires CarOk(cfg, c) && CountsOk(c, TallyOf(s.passengers, e)) && c.riding == s.cars[e].riding
    requires c.pc.Halted? ==> s.stop
    requires c.floor != s.cars[e].floor ==> Total(Holding, s.passengers, e) == 0
    ensures Inv(cfg, s.(cars := s.cars[e := c]))
  {
    TiedToChanged(s.passengers, e, s.cars[e], c);
  }

  lemma ElevatorTurnKeepsInv(cfg: Config, s: State, e: nat)
    requires Sensible(cfg) && Inv(cfg, s)
    ensures Inv(cfg, Apply(cfg, s, ElevatorTurn(e)))
  {
    if e < CARS {
      var c, xs := s.cars[e], s.passengers;
      TallyConsistent(xs, e);
      ElevatorStepOk(cfg, e, c, TallyOf(xs, e), xs, s.stop);
      var r := ElevatorStep(cfg, e, c, xs, s.stop);
      if r.Go? {
        CarChangeKeepsInv(cfg, s, e, r.next);
      }
    }
  }

  // ---------------------------------------------------------------- passenger turns keep it

  lemma {:induction false} WithoutRemovesOne(riding: seq<nat>, p: nat)
    requires Distinct(riding) && p in riding
    ensures |Without(riding, p)| == |riding| - 1 && Distinct(Without(riding, p))
    ensures forall q :: q in Without(riding, p) <==> q in riding && q != p
  {
    var head, rest := riding[0], riding[1..];
    assert riding == [head] + rest;
    assert Distinct(rest) && head !in rest;
    if head != p {
      WithoutRemovesOne(rest, p);
    }
  }

  /** What the lemmas about one turn of passenger `p` may assume. */
  predicate TurnPre(cfg: Config, p: nat, x: Passenger, c: Car, t: Tally, passengers: nat) {
    && Sensible(cfg) && p < passengers
    && PassengerOk(cfg, p, x) && Tied(p, x, c)
    && CarOk(cfg, c) && CountsOk(c, t) && Consistent(t) && Counts(t, x.pc)
    && ListOk(CarOf(p), c.riding, passengers)
  }

  /** What such a turn must leave behind, the counters aside. */
  ghost predicate TurnShape(cfg: Config, p: nat, x: Passenger, c: Car, passengers: nat, r: Outcome<(Passenger, Car)>) {
    && !r.Fail?
    && (r.Go? ==>
          && PassengerOk(cfg, p, r.next.0) && Tied(p, r.next.0, r.next.1) && CarOk(cfg, r.next.1)
          && r.next.1.floor == c.floor && r.next.1.pc == c.pc
          && !x.pc.Finished?
          && ListOk(CarOf(p), r.next.1.riding, passengers)
          && (forall q | q != p :: q in r.next.1.riding <==> q in c.riding))
  }

  /** And the counters: each moves with the passenger's own change of place. */
  predicate TurnCounts(x: Passenger, t: Tally, r: Outcome<(Passenger, Car)>) {
    r.Go? ==> CountsOk(r.next.1, Shifted(t, x.pc, r.next.0.pc))
  }

  lemma RegisterStepOk(cfg: Config, p: nat, x: Passenger, c: Car, t: Tally, n: nat, stop: bool, pick: nat)
    requires TurnPre(cfg, p, x, c, t, n) && Registering(x.pc)
    ensures TurnShape(cfg, p, x, c, n, RegisterStep(cfg, p, x, c, stop, pick))
  {
    var r := RegisterStep(cfg, p, x, c, stop, pick);
    if r.Go? {
      assert r.next.0.pc.Finished? || Registering(r.next.0.pc) || r.next.0.pc.AwaitEntry?;
      assert r.next.1.riding == c.riding;
    }
  }

  lemma EntryStepOk(cfg: Config, p: nat, x: Passenger, c: Car, t: Tally, n: nat)
    requires TurnPre(cfg, p, x, c, t, n) && (x.pc.AwaitEntry? || BeforeEntry(x.pc))
    ensures TurnShape(cfg, p, x, c, n, EntryStep(p, x, c))
  {
    var r := EntryStep(p, x, c);
    assert r.Go? ==> BeforeEntry(r.next.0.pc) || r.next.0.pc.MarkRiding?;
  }

  lemma BoardedStepOk(cfg: Config, p: nat, x: Passenger, c: Car, t: Tally, n: nat)
    requires TurnPre(cfg, p, x, c, t, n) && AfterEntry(x.pc)
    ensures TurnShape(cfg, p, x, c, n, EntryStep(p, x, c))
  {
    var r := EntryStep(p, x, c);
    assert r.Go? && (AfterEntry(r.next.0.pc) || r.next.0.pc.AwaitExit?);
  }

  lemma ExitStepOk(cfg: Config, p: nat, x: Passenger, c: Car, t: Tally, n: nat)
    requires TurnPre(cfg, p, x, c, t, n) && (x.pc.AwaitExit? || BeforeExit(x.pc))
    ensures TurnShape(cfg, p, x, c, n, ExitStep(p, x, c))
  {
    var r := ExitStep(p, x, c);
    assert r.Go? ==> BeforeExit(r.next.0.pc) || r.next.0.pc.CountOut?;
  }

  lemma AlightedStepOk(cfg: Config, p: nat, x: Passenger, c: Car, t: Tally, n: nat)
    requires TurnPre(cfg, p, x, c, t, n) && AfterExit(x.pc)
    ensures TurnShape(cfg, p, x, c, n, ExitStep(p, x, c))
  {
    var r := ExitStep(p, x, c);
    if x.pc.Unlink? {
      WithoutRemovesOne(c.riding, p);
    }
    assert r.Go? && (AfterExit(r.next.0.pc) || r.next.0.pc.CheckArrival?);
  }

  lemma ArrivalStepOk(cfg: Config, p: nat, x: Passenger, c: Car, t: Tally, n: nat)
    requires TurnPre(cfg, p, x, c, t, n) && HasExited(x.pc)
    ensures TurnShape(cfg, p, x, c, n, ArrivalStep(x, c))
  {
  }

  lemma TakingStepCounts(cfg: Config, p: nat, x: Passenger, c: Car, t: Tally, n: nat)
    requires TurnPre(cfg, p, x, c, t, n) && x.pc.AwaitEntry?
    ensures TurnCounts(x, t, EntryStep(p, x, c))
  {
  }

  lemma EntryStepCounts(cfg: Config, p: nat, x: Passenger, c: Car, t: Tally, n: nat)
    requires TurnPre(cfg, p, x, c, t, n) && (x.pc.AwaitEntry? || BeforeEntry(x.pc))
    ensures TurnCounts(x, t, EntryStep(p, x, c))
  {
    if x.pc.AwaitEntry? {
      TakingStepCounts(cfg, p, x, c, t, n);
    }
  }

  lemma BoardedStepCounts(cfg: Config, p: nat, x: Passenger, c: Car, t: Tally, n: nat)
    requires TurnPre(cfg, p, x, c, t, n) && AfterEntry(x.pc)
    ensures TurnCounts(x, t, EntryStep(p, x, c))
  {
  }

  lemma ExitStepCounts(cfg: Config, p: nat, x: Passenger, c: Car, t: Tally, n: nat)
    requires TurnPre(cfg, p, x, c, t, n) && (x.pc.AwaitExit? || BeforeExit(x.pc))
    ensures TurnCounts(x, t, ExitStep(p, x, c))
  {
  }

  lemma UnlinkStepCounts(cfg: Config, p: nat, x: Passenger, c: Car, t: Tally, n: nat)
    requires TurnPre(cfg, p, x, c, t, n) && x.pc.Unlink?
    ensures TurnCounts(x, t, ExitStep(p, x, c))
  {
    WithoutRemovesOne(c.riding, p);
  }

  lemma AlightedStepCounts(cfg: Config, p: nat, x: Passenger, c: Car, t: Tally, n: nat)
    requires TurnPre(cfg, p, x, c, t, n) && AfterExit(x.pc)
    ensures TurnCounts(x, t, ExitStep(p, x, c))
  {
    if x.pc.Unlink? {
      UnlinkStepCounts(cfg, p, x, c, t, n);
    }
  }

  /** In no count but the one of entries and exits to come. */
  predicate Uncounted(pc: PassengerPc) {
    !Is(Holding, pc) && !Is(Booked, pc) && !Is(Aboard, pc) && !Is(Counted, pc) && !Is(Listed, pc)
  }

  lemma RegisterStepCounts(cfg: Config, p: nat, x: Passenger, c: Car, t: Tally, stop: bool, pick: nat)
    requires CountsOk(c, t) && Registering(x.pc)
    ensures TurnCounts(x, t, RegisterStep(cfg, p, x, c, stop, pick))
  {
    var r := RegisterStep(cfg, p, x, c, stop, pick);
    assert Uncounted(x.pc);
    if r.Go? {
      assert Uncounted(r.next.0.pc);
      assert Shifted(t, x.pc, r.next.0.pc) == t;
    }
  }

  lemma ArrivalStepCounts(x: Passenger, c: Car, t: Tally)
    requires CountsOk(c, t) && HasExited(x.pc)
    ensures TurnCounts(x, t, ArrivalStep(x, c))
  {
    var r := ArrivalStep(x, c);
    assert r.Go? ==> Shifted(t, x.pc, r.next.0.pc) == t;
  }

  lemma PassengerStepOk(cfg: Config, p: nat, x: Passenger, c: Car, t: Tally, n: nat, stop: bool, pick: nat)
    requires TurnPre(cfg, p, x, c, t, n)
    ensures TurnShape(cfg, p, x, c, n, PassengerStep(cfg, p, x, c, stop, pick))
    ensures TurnCounts(x, t, PassengerStep(cfg, p, x, c, stop, pick))
  {
    if x.pc.AwaitEntry? || Entering(x.pc) {
      if AfterEntry(x.pc) {
        BoardedStepOk(cfg, p, x, c, t, n);
        BoardedStepCounts(cfg, p, x, c, t, n);
      } else {
        EntryStepOk(cfg, p, x, c, t, n);
        EntryStepCounts(cfg, p, x, c, t, n);
      }
    } else if x.pc.AwaitExit? || Leaving(x.pc) {
      if AfterExit(x.pc) {
        AlightedStepOk(cfg, p, x, c, t, n);
        AlightedStepCounts(cfg, p, x, c, t, n);
      } else {
        ExitStepOk(cfg, p, x, c, t, n);
        ExitStepCounts(cfg, p, x, c, t, n);
      }
    } else if Registering(x.pc) {
      RegisterStepOk(cfg, p, x, c, t, n, stop, pick);
      RegisterStepCounts(cfg, p, x, c, t, stop, pick);
    } else {
      ArrivalStepOk(cfg, p, x, c, t, n);
      ArrivalStepCounts(x, c, t);
    }
  }

  lemma CountsAfterChange(cars: seq<Car>, xs: seq<Passenger>, p: nat, x: Passenger, c: Car, next: seq<Car>)
    requires |cars| == CARS && p < |xs| && next == cars[CarOf(p) := c]
    requires forall d | 0 <= d < CARS :: CountsOk(cars[d], TallyOf(xs, d))
    requires CountsOk(c, Shifted(TallyOf(xs, CarOf(p)), xs[p].pc, x.pc))
    ensures forall d | 0 <= d < CARS :: CountsOk(next[d], TallyOf(xs[p := x], d))
  {
    forall d | 0 <= d < CARS
      ensures CountsOk(next[d], TallyOf(xs[p := x], d))
    {
      TallyAfterUpdate(xs, p, x, d);
    }
  }

  lemma TiedAfterChange(cars: seq<Car>, xs: seq<Passenger>, p: nat, x: Passenger, c: Car, e: nat)
    requires |cars| == CARS && p < |xs| && e == CarOf(p)
    requires forall q | 0 <= q < |xs| :: Tied(q, xs[q], cars[CarOf(q)])
    requires Tied(p, x, c) && c.floor == cars[e].floor
    requires forall q | q != p :: q in c.riding <==> q in cars[e].riding
    ensures forall q | 0 <= q < |xs| :: Tied(q, xs[p := x][q], cars[e := c][CarOf(q)])
  {
    forall q | 0 <= q < |xs|
      ensures Tied(q, xs[p := x][q], cars[e := c][CarOf(q)])
    {
      assert Tied(q, xs[q], cars[CarOf(q)]);
    }
  }

  /** Putting back one passenger and its car keeps the invariant if it does so locally. */
  lemma LocalChangeKeepsInv(cfg: Config, s: State, p: nat, x: Passenger, c: Car)
    requires Inv(cfg, s) && p < |s.passengers|
    requires PassengerOk(cfg, p, x) && Tied(p, x, c) && CarOk(cfg, c)
    requires CountsOk(c, Shifted(TallyOf(s.passengers, CarOf(p)), s.passengers[p].pc, x.pc))
    requires ListOk(CarOf(p), c.riding, |s.passengers|)
    requires c.floor == s.cars[CarOf(p)].floor && c.pc == s.cars[CarOf(p)].pc
    requires s.stop ==> x.pc.Finished?
    requires forall q | q != p :: q in c.riding <==> q in s.cars[CarOf(p)].riding
    ensures Inv(cfg, s.(passengers := s.passengers[p := x], cars := s.cars[CarOf(p) := c]))
  {
    CountsAfterChange(s.cars, s.passengers, p, x, c, s.cars[CarOf(p) := c]);
    TiedAfterChange(s.cars, s.passengers, p, x, c, CarOf(p));
  }

  lemma PassengerTurnKeepsInv(cfg: Config, s: State, p: nat, pick: nat)
    requires Sensible(cfg) && Inv(cfg, s)
    ensures Inv(cfg, Apply(cfg, s, PassengerTurn(p, pick)))
  {
    if p < |s.passengers| {
      var e, xs := CarOf(p), s.passengers;
      TallyConsistent(xs, e);
      TallyCounts(xs, p);
      PassengerStepOk(cfg, p, xs[p], s.cars[e], TallyOf(xs, e), |xs|, s.stop, pick);
      var r := PassengerStep(cfg, p, xs[p], s.cars[e], s.stop, pick);
      if r.Go? {
        LocalChangeKeepsInv(cfg, s, p, r.next.0, r.next.1);
      }
    }
  }

  // ---------------------------------------------------------------- every run keeps it

  lemma TurnKeepsInv(cfg: Config, s: State, a: Action)
    requires Sensible(cfg) && Inv(cfg, s)
    ensures Inv(cfg, Apply(cfg, s, a))
  {
    match a
    case PassengerTurn(p, pick) => PassengerTurnKeepsInv(cfg, s, p, pick);
    case ElevatorTurn(e) => ElevatorTurnKeepsInv(cfg, s, e);
    case MainStops =>
  }

  lemma {:induction false} RunKeepsInv(cfg: Config, s: State, schedule: seq<Action>)
    requires Sensible(cfg) && Inv(cfg, s)
    ensures Inv(cfg, Run(cfg, s, schedule))
    decreases |schedule|
  {
    if schedule != [] {
      TurnKeepsInv(cfg, s, schedule[0]);
      RunKeepsInv(cfg, Apply(cfg, s, schedule[0]), schedule[1..]);
    }
  }

  /** `s` is a state some run from an initial state passes through. */
  ghost predicate Reachable(cfg: Config, s: State) {
    exists s0, schedule :: Initial(cfg, s0) && s == Run(cfg, s0, schedule)
  }

  lemma ReachableInv(cfg: Config, s: State)
    requires Sensible(cfg) && Reachable(cfg, s)
    ensures Inv(cfg, s)
  {
    var s0, schedule :| Initial(cfg, s0) && s == Run(cfg, s0, schedule);
    InvAtFirst(cfg, s0);
    RunKeepsInv(cfg, s0, schedule);
  }

  // ---------------------------------------------------------------- what the referee can rely on

  /** No interleaving of any number of passenger threads with the elevator
      threads ends the program: none of the referee's messages, nor the removal
      of somebody who is not listed, can occur. */
  lemma NoViolation(cfg: Config, s: State)
    requires Sensible(cfg) && Reachable(cfg, s)
    ensures s.ended == None
  {
    ReachableInv(cfg, s);
  }

  /** What has to be so for a car to open, close and move. */
  predicate MayOpen(c: Car) {
    0 <= c.aboard <= CAPACITY && !c.open
  }

  predicate MayClose(c: Car) {
    0 <= c.aboard <= CAPACITY && c.open
  }

  predicate MayMove(cfg: Config, c: Car) {
    0 <= c.aboard <= CAPACITY && !c.open && IsFloor(cfg, c.refFloor)
  }

  /** A passenger enters where it waits, through an open door, if there is a place left. */
  predicate MayEnter(x: Passenger, c: Car) {
    x.state == WAITING && c.refFloor == x.origin && c.open && c.aboard != CAPACITY
  }

  /** It leaves the car it is in at its destination, through an open door. */
  predicate MayLeave(p: nat, x: Passenger, c: Car) {
    x.state == ENTERED && x.inside == CarOf(p) && c.refFloor == x.destination && c.open
  }

  /** The message is true of the car. */
  predicate CarBreaks(cfg: Config, c: Car, why: Violation) {
    match why
    case BadPassengerCount => c.aboard < 0 || c.aboard > CAPACITY
    case OpenWhenOpen => (c.pc.OpenCheck1? || c.pc.OpenCheck2?) && c.open
    case CloseWhenClosed => c.pc.CloseCheck? && !c.open
    case MoveWithDoorOpen => (c.pc.MoveCheck1? || c.pc.MoveCheck2?) && c.open
    case MoveOutsideBuilding => (c.pc.MoveCheck1? || c.pc.MoveCheck2?) && !IsFloor(cfg, c.refFloor)
    case _ => false
  }

  /** And of the passenger. */
  predicate PassengerBreaks(p: nat, x: Passenger, c: Car, why: Violation) {
    match why
    case EntryOnWrongFloor => BeforeEntry(x.pc) && x.origin != c.refFloor
    case EntryThroughClosedDoor => BeforeEntry(x.pc) && !c.open
    case EntryIntoFullCar => BeforeEntry(x.pc) && c.aboard == CAPACITY
    case EntryWhenNotWaiting => BeforeEntry(x.pc) && x.state != WAITING
    case ExitFromOtherCar => BeforeExit(x.pc) && x.inside != CarOf(p)
    case ExitOnWrongFloor => BeforeExit(x.pc) && x.destination != c.refFloor
    case ExitThroughClosedDoor => BeforeExit(x.pc) && !c.open
    case ExitWhenNotInside => BeforeExit(x.pc) && x.state != ENTERED
    case NotOnRidingList => x.pc.Unlink? && p !in c.riding
    case ArrivedElsewhere => x.pc.CheckArrival? && x.at != x.destination
    case _ => false
  }

  /** The referee is strict: in any state whatsoever a thread that stands before one of
      its checks ends the program with its next turn exactly if what it is about to do is
      not allowed, and the message says why. */
  lemma CarIsChecked(cfg: Config, s: State, e: nat)
    requires s.ended.None? && e < |s.cars|
    ensures var c, ended := s.cars[e], Apply(cfg, s, ElevatorTurn(e)).ended;
      && (c.pc.OpenCheck1? || c.pc.OpenCheck2? ==> (ended.Some? <==> !MayOpen(c)))
      && (c.pc.CloseCheck? ==> (ended.Some? <==> !MayClose(c)))
      && (c.pc.MoveCheck1? || c.pc.MoveCheck2? ==> (ended.Some? <==> !MayMove(cfg, c)))
      && (ended.Some? ==> CarBreaks(cfg, c, ended.value))
  {
  }

  lemma PassengerIsChecked(cfg: Config, s: State, p: nat, pick: nat)
    requires s.ended.None? && |s.cars| == CARS && p < |s.passengers|
    ensures var x, c := s.passengers[p], s.cars[CarOf(p)];
      var ended := Apply(cfg, s, PassengerTurn(p, pick)).ended;
      && (x.pc.EntryCheck1? || x.pc.EntryCheck2? ==> (ended.Some? <==> !MayEnter(x, c)))
      && (x.pc.ExitCheck1? || x.pc.ExitCheck2? ==> (ended.Some? <==> !MayLeave(p, x, c)))
      && (x.pc.Unlink? ==> (ended.Some? <==> p !in c.riding))
      && (x.pc.CheckArrival? ==> (ended.Some? <==> x.at != x.destination))
      && (ended.Some? ==> PassengerBreaks(p, x, c, ended.value))
  {
  }

  /** About to act, the car may still do so, and stays inside the building. */
  predicate CarMayAct(cfg: Config, c: Car) {
    && (c.pc.OpenAct? ==> MayOpen(c))
    && (c.pc.CloseAct? ==> MayClose(c))
    && (c.pc.MoveAct? ==> MayMove(cfg, c) && IsFloor(cfg, c.refFloor + c.direction))
  }

  predicate PassengerMayAct(p: nat, x: Passenger, c: Car) {
    && (x.pc.EntryAct? ==> MayEnter(x, c) && c.aboard < CAPACITY)
    && (x.pc.ExitAct? ==> MayLeave(p, x, c))
  }

  /** The referee lets go of its lock between its last check and the act the check
      was for; the act is still allowed when it happens. */
  lemma ActsAreStillAllowed(cfg: Config, s: State)
    requires Sensible(cfg) && Reachable(cfg, s)
    ensures |s.cars| == CARS
    ensures forall e | 0 <= e < CARS :: CarMayAct(cfg, s.cars[e])
    ensures forall p | 0 <= p < |s.passengers| :: PassengerMayAct(p, s.passengers[p], s.cars[CarOf(p)])
  {
    ReachableInv(cfg, s);
    forall e | 0 <= e < CARS
      ensures CarMayAct(cfg, s.cars[e])
    {
      TallyConsistent(s.passengers, e);
      CarActIsAllowed(cfg, s.cars[e], TallyOf(s.passengers, e));
    }
    forall p | 0 <= p < |s.passengers|
      ensures PassengerMayAct(p, s.passengers[p], s.cars[CarOf(p)])
    {
      TallyConsistent(s.passengers, CarOf(p));
      TallyCounts(s.passengers, p);
      PassengerActIsAllowed(cfg, p, s.passengers[p], s.cars[CarOf(p)], TallyOf(s.passengers, CarOf(p)));
    }
  }

  lemma CarActIsAllowed(cfg: Config, c: Car, t: Tally)
    requires CarOk(cfg, c) && CountsOk(c, t) && Consistent(t)
    ensures CarMayAct(cfg, c)
  {
  }

  lemma PassengerActIsAllowed(cfg: Config, p: nat, x: Passenger, c: Car, t: Tally)
    requires PassengerOk(cfg, p, x) && Tied(p, x, c)
    requires CarOk(cfg, c) && CountsOk(c, t) && Consistent(t) && Counts(t, x.pc)
    ensures PassengerMayAct(p, x, c)
  {
  }

  /** The one-shot token of each car: ready for a passenger, held by one, or handed
      back, in exactly one of these while the car serves and in none otherwise. A
      car that offers it stands with an open door at the floor the referee has. */
  lemma OneTokenPerDoorOpening(cfg: Config, s: State, e: nat)
    requires Sensible(cfg) && Reachable(cfg, s) && e < CARS
    ensures |s.cars| == CARS
    ensures One(s.cars[e].ready) + Total(Holding, s.passengers, e) + One(s.cars[e].passengerReady)
         == if Serving(s.cars[e].pc) then 1 else 0
    ensures s.cars[e].ready ==> s.cars[e].open && s.cars[e].floor == s.cars[e].refFloor
  {
    ReachableInv(cfg, s);
    assert CountsOk(s.cars[e], TallyOf(s.passengers, e));
  }

  /** At most one passenger of a car is between taking the token and handing it back. */
  lemma ServedOneAtATime(cfg: Config, s: State, p: nat, q: nat)
    requires Sensible(cfg) && Reachable(cfg, s)
    requires p < |s.passengers| && q < |s.passengers| && CarOf(p) == CarOf(q)
    requires Entering(s.passengers[p].pc) || Leaving(s.passengers[p].pc)
    requires Entering(s.passengers[q].pc) || Leaving(s.passengers[q].pc)
    ensures p == q
  {
    ReachableInv(cfg, s);
    assert CountsOk(s.cars[CarOf(p)], TallyOf(s.passengers, CarOf(p)));
    OneHolder(s.passengers, CarOf(p), p, q);
  }

  /** While no passenger of a car holds the token, the scheduler's counter, its
      list and the referee's counter have the same value, at most three. */
  lemma RiderCountersAgree(cfg: Config, s: State, e: nat)
    requires Sensible(cfg) && Reachable(cfg, s) && e < CARS
    requires Total(Holding, s.passengers, e) == 0
    ensures |s.cars| == CARS
    ensures s.cars[e].count == |s.cars[e].riding| == s.cars[e].aboard <= CAPACITY
  {
    ReachableInv(cfg, s);
    TallyConsistent(s.passengers, e);
    assert CountsOk(s.cars[e], TallyOf(s.passengers, e));
  }

  /** And the list names exactly the passengers of the car the referee has inside. */
  lemma RidersAreThoseInside(cfg: Config, s: State, e: nat)
    requires Sensible(cfg) && Reachable(cfg, s) && e < CARS
    requires Total(Holding, s.passengers, e) == 0
    ensures |s.cars| == CARS
    ensures forall p: nat :: p in s.cars[e].riding <==>
              p < |s.passengers| && CarOf(p) == e && s.passengers[p].state == ENTERED
  {
    ReachableInv(cfg, s);
    var xs, riding := s.passengers, s.cars[e].riding;
    assert ListOk(e, riding, |xs|);
    forall p: nat
      ensures p in riding <==> p < |xs| && CarOf(p) == e && xs[p].state == ENTERED
    {
      if p < |xs| && CarOf(p) == e {
        NobodyHolds(xs, e, p);
        assert Tied(p, xs[p], s.cars[e]) && PassengerOk(cfg, p, xs[p]);
      }
    }
  }

  /** At any moment the riding lists are free of repetitions and of each other. */
  lemma RidingListsDisjoint(cfg: Config, s: State, d: nat, e: nat)
    requires Sensible(cfg) && Reachable(cfg, s) && d < CARS && e < CARS
    ensures |s.cars| == CARS
    ensures Distinct(s.cars[e].riding)
    ensures d != e ==> forall p | p in s.cars[d].riding :: p !in s.cars[e].riding
  {
    ReachableInv(cfg, s);
    assert ListOk(d, s.cars[d].riding, |s.passengers|) && ListOk(e, s.cars[e].riding, |s.passengers|);
  }

  /** Both the scheduler's and the referee's floor stay inside the building,
      whatever registrations write into `waitAt` and whenever they do it. */
  lemma FloorsStayInside(cfg: Config, s: State, e: nat)
    requires Sensible(cfg) && Reachable(cfg, s) && e < CARS
    ensures |s.cars| == CARS
    ensures IsFloor(cfg, s.cars[e].floor) && IsFloor(cfg, s.cars[e].refFloor)
  {
    ReachableInv(cfg, s);
  }
}
