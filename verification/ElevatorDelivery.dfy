/** Once its passengers have registered for the last of their trips, a car delivers them
    all within two calls of the scheduler per passenger and floor. */
module ElevatorDelivery {
  import opened NearestTarget
  import opened Elevator
  import opened Census
  import opened ElevatorSafety

  // ---------------------------------------------------------------- registered passengers

  /** On its last trip, or back from it, and on the scheduler's record as such. */
  predicate Settled(p: nat, x: Passenger) {
    && x.trips == 0 && x.elevator == CarOf(p)
    && (Registering(x.pc) ==> x.pc.NextTrip?)
    && (x.pc.NextTrip? || HasExited(x.pc) ==> x.state == EXITED && x.at == x.destination)
    && (x.pc.AwaitEntry? || Is(Booked, x.pc) ==> x.from == x.origin && x.to == x.destination)
    && (x.status == 0 <==> x.pc.AwaitEntry? || BeforeEntry(x.pc) || x.pc.MarkRiding?)
  }

  /** Passengers of car `e` are settled, and nobody else is taken for one of them. */
  predicate SettledFor(p: nat, x: Passenger, e: nat) {
    if CarOf(p) == e then Settled(p, x) else x.elevator != e
  }

  ghost predicate AllSettled(xs: seq<Passenger>, e: nat) {
    forall p | 0 <= p < |xs| :: SettledFor(p, xs[p], e)
  }

  /** How far registration for the last trip has got; a passenger with trips left has not
      finished. */
  predicate LastTrip(p: nat, x: Passenger) {
    if IsRegistered(x) then Settled(p, x)
    else if x.trips == 0 then
      && (!x.pc.SetWaitAt? && !x.pc.SetFrom? ==> x.from == x.origin)
      && (x.pc.SetElevator? || x.pc.SetStatus? || x.pc.CountStart? ==> x.to == x.destination)
      && (x.pc.SetStatus? || x.pc.CountStart? ==> x.elevator == CarOf(p))
      && (x.pc.CountStart? ==> x.status == 0)
    else !x.pc.Finished?
  }

  /** Past the registration for the last trip. */
  predicate IsRegistered(x: Passenger) {
    x.trips == 0 && (Registering(x.pc) ==> x.pc.NextTrip?)
  }

  /** On a trip it has registered for, or back from the last one: it will not begin to
      register before it has been served. */
  predicate OnTrip(x: Passenger) {
    x.pc.AwaitEntry? || Entering(x.pc) || x.pc.AwaitExit? || Leaving(x.pc) || IsRegistered(x)
  }

  /** All passengers of car `e` have registered for their last trip, and no record of
      another car's passenger names car `e`, as one not yet written does for car 0. */
  ghost predicate RegisteredFor(s: State, e: nat) {
    forall p | 0 <= p < |s.passengers| ::
      if CarOf(p) == e then IsRegistered(s.passengers[p]) else s.passengers[p].elevator != e
  }

  lemma LastTripRegisters(cfg: Config, p: nat, x: Passenger, c: Car, stop: bool, pick: nat)
    requires LastTrip(p, x) && PassengerOk(cfg, p, x) && Registering(x.pc) && cfg.floors > 0
    requires stop ==> x.pc.Finished?
    ensures var r := RegisterStep(cfg, p, x, c, stop, pick);
      r.Go? ==> LastTrip(p, r.next.0)
  {
  }

  lemma LastTripEnters(cfg: Config, p: nat, x: Passenger, c: Car)
    requires Settled(p, x) && (x.pc.AwaitEntry? || Entering(x.pc))
    ensures var r := EntryStep(p, x, c);
      r.Go? ==> Settled(p, r.next.0)
  {
  }

  lemma LastTripExits(cfg: Config, p: nat, x: Passenger, c: Car)
    requires Settled(p, x) && PassengerOk(cfg, p, x) && (x.pc.AwaitExit? || Leaving(x.pc))
    requires BeforeExit(x.pc) ==> x.destination == c.refFloor
    ensures var r := ExitStep(p, x, c);
      r.Go? ==> Settled(p, r.next.0)
  {
  }

  lemma LastTripArrives(cfg: Config, p: nat, x: Passenger, c: Car)
    requires Settled(p, x) && HasExited(x.pc)
    ensures var r := ArrivalStep(x, c);
      r.Go? ==> Settled(p, r.next.0)
  {
  }

  /** Only registration uses up a trip. */
  lemma TripsStay(cfg: Config, p: nat, x: Passenger, c: Car, stop: bool, pick: nat)
    requires x.trips > 0 && !Registering(x.pc)
    ensures var r := PassengerStep(cfg, p, x, c, stop, pick);
      r.Go? ==> r.next.0.trips == x.trips && (r.next.0.pc.Finished? ==> x.pc.Finished?)
  {
    if x.pc.AwaitEntry? || Entering(x.pc) {
    } else if x.pc.AwaitExit? || Leaving(x.pc) {
    } else {
    }
  }

  lemma LastTripStep(cfg: Config, p: nat, x: Passenger, c: Car, stop: bool, pick: nat)
    requires LastTrip(p, x) && PassengerOk(cfg, p, x)
    requires stop ==> x.pc.Finished?
    requires cfg.floors > 0
    requires BeforeExit(x.pc) ==> x.destination == c.refFloor
    ensures var r := PassengerStep(cfg, p, x, c, stop, pick);
      r.Go? ==> LastTrip(p, r.next.0)
  {
    if Registering(x.pc) {
      LastTripRegisters(cfg, p, x, c, stop, pick);
    } else if x.trips > 0 {
      TripsStay(cfg, p, x, c, stop, pick);
    } else if x.pc.AwaitEntry? || Entering(x.pc) {
      LastTripEnters(cfg, p, x, c);
    } else if x.pc.AwaitExit? || Leaving(x.pc) {
      LastTripExits(cfg, p, x, c);
    } else {
      LastTripArrives(cfg, p, x, c);
    }
  }

  ghost predicate LastTrips(s: State) {
    forall p | 0 <= p < |s.passengers| :: LastTrip(p, s.passengers[p])
  }

  lemma LastTripsTurn(cfg: Config, s: State, a: Action)
    requires Sensible(cfg) && Inv(cfg, s) && LastTrips(s)
    ensures LastTrips(Apply(cfg, s, a))
  {
    if a.PassengerTurn? && a.p < |s.passengers| {
      var x, c := s.passengers[a.p], s.cars[CarOf(a.p)];
      assert Tied(a.p, x, c) && PassengerOk(cfg, a.p, x);
      HolderMeetsCar(cfg, s, a.p);
      LastTripStep(cfg, a.p, x, c, s.stop, a.pick);
    }
  }

  /** While a passenger holds the token its car stands still and waits for it. */
  lemma HolderMeetsCar(cfg: Config, s: State, p: nat)
    requires Inv(cfg, s) && p < |s.passengers|
    ensures Is(Holding, s.passengers[p].pc) ==>
      var c := s.cars[CarOf(p)]; c.pc.AwaitPassenger? && !c.ready && !c.passengerReady
  {
    TallyCounts(s.passengers, p);
    assert CountsOk(s.cars[CarOf(p)], TallyOf(s.passengers, CarOf(p)));
  }

  lemma {:induction false} LastTripsRun(cfg: Config, s: State, schedule: seq<Action>)
    requires Sensible(cfg) && Inv(cfg, s) && LastTrips(s)
    ensures LastTrips(Run(cfg, s, schedule))
    decreases |schedule|
  {
    if schedule != [] {
      TurnKeepsInv(cfg, s, schedule[0]);
      LastTripsTurn(cfg, s, schedule[0]);
      LastTripsRun(cfg, Apply(cfg, s, schedule[0]), schedule[1..]);
    }
  }

  lemma LastTripsAtFirst(cfg: Config, s: State)
    requires Initial(cfg, s) && cfg.trips > 0
    ensures LastTrips(s)
  {
    forall p | 0 <= p < |s.passengers|
      ensures LastTrip(p, s.passengers[p])
    {
      assert InitialPassenger(cfg, s.passengers[p]);
    }
  }

  lemma ReachableLastTrips(cfg: Config, s: State)
    requires Sensible(cfg) && cfg.trips > 0 && Reachable(cfg, s)
    ensures LastTrips(s)
  {
    var s0, schedule :| Initial(cfg, s0) && s == Run(cfg, s0, schedule);
    InvAtFirst(cfg, s0);
    LastTripsAtFirst(cfg, s0);
    LastTripsRun(cfg, s0, schedule);
  }

  /** Whoever is past registration for the last trip is on record as it should be. */
  lemma RegisteredIsSettled(cfg: Config, s: State, e: nat)
    requires Sensible(cfg) && cfg.trips > 0 && Reachable(cfg, s)
    requires RegisteredFor(s, e)
    ensures AllSettled(s.passengers, e)
  {
    ReachableLastTrips(cfg, s);
    forall p | 0 <= p < |s.passengers|
      ensures SettledFor(p, s.passengers[p], e)
    {
      assert LastTrip(p, s.passengers[p]);
    }
  }

  // ---------------------------------------------------------------- what a car is asked for

  /** Destinations of those riding, in list order. */
  function RiderFloors(xs: seq<Passenger>, riding: seq<nat>): (floors: seq<int>)
    ensures |floors| == |riding|
  {
    seq(|riding|, i requires 0 <= i < |riding| => if riding[i] < |xs| then xs[riding[i]].to else NO_TARGET)
  }

  /** Floors of those of the first `m` passengers who wait for car `e`. */
  function WaiterFloors(xs: seq<Passenger>, e: nat, m: nat): seq<int>
    requires m <= |xs|
  {
    if m == 0 then []
    else WaiterFloors(xs, e, m - 1) + (if AsksFor(xs[m - 1], e) then [xs[m - 1].from] else [])
  }

  /** The floors a car chooses among: riders first, waiters only when it is empty. */
  function Asked(c: Car, xs: seq<Passenger>, e: nat): seq<int> {
    if c.riding != [] then RiderFloors(xs, c.riding) else WaiterFloors(xs, e, |xs|)
  }

  lemma {:induction false} WaiterFloorsMembers(cfg: Config, xs: seq<Passenger>, e: nat, m: nat)
    requires m <= |xs|
    requires forall p | 0 <= p < |xs| :: PassengerOk(cfg, p, xs[p])
    ensures forall f | f in WaiterFloors(xs, e, m) ::
              IsFloor(cfg, f) && exists p | 0 <= p < m :: AsksFor(xs[p], e) && xs[p].from == f
    ensures WaiterFloors(xs, e, m) == [] <==> forall p | 0 <= p < m :: !AsksFor(xs[p], e)
  {
    if m > 0 {
      WaiterFloorsMembers(cfg, xs, e, m - 1);
    }
  }

  /** A passenger's turn leaves alone what it does not write. */
  lemma {:induction false} WaiterFloorsFrame(xs: seq<Passenger>, p: nat, x: Passenger, e: nat, m: nat)
    requires m <= |xs| && p < |xs|
    requires AsksFor(x, e) <==> AsksFor(xs[p], e)
    requires AsksFor(x, e) ==> x.from == xs[p].from
    ensures WaiterFloors(xs[p := x], e, m) == WaiterFloors(xs, e, m)
  {
    if m > 0 {
      WaiterFloorsFrame(xs, p, x, e, m - 1);
    }
  }

  // ---------------------------------------------------------------- a call keeps its course

  /** How far the planning of the current call has got, and that its choice is the
      nearest of the floors asked for. */
  predicate OnCourse(c: Car, e: nat, xs: seq<Passenger>) {
    var asked := Asked(c, xs, e);
    match c.pc
    case ScanRiders =>
      c.riding != [] && c.i < |c.riding| && c.closest == Nearest(asked[..c.i + 1], c.at)
    case ScanWaiters =>
      c.riding == [] && c.i <= |xs| && c.closest == NearestOrNone(WaiterFloors(xs, e, c.i), c.at)
    case SetTarget => c.closest == NearestOrNone(asked, c.at)
    case SteerUp => c.waitAt == NearestOrNone(asked, c.at)
    case SteerDown =>
      c.waitAt == NearestOrNone(asked, c.at) && (c.waitAt > c.at ==> c.direction == 1)
    case Decide =>
      && c.waitAt == NearestOrNone(asked, c.at) && (c.waitAt > c.at ==> c.direction == 1)
      && (c.waitAt != NO_TARGET && c.waitAt < c.at ==> c.direction == -1)
    case _ => Opening(c.pc) || c.ready ==> asked != [] && Nearest(asked, c.at) == c.at
  }

  /** The floors asked for are in the building. */
  ghost predicate AllFloors(cfg: Config, floors: seq<int>) {
    forall f | f in floors :: IsFloor(cfg, f)
  }

  lemma AskedAreFloors(cfg: Config, c: Car, xs: seq<Passenger>, e: nat)
    requires forall p | 0 <= p < |xs| :: PassengerOk(cfg, p, xs[p])
    requires ListOk(e, c.riding, |xs|)
    ensures AllFloors(cfg, Asked(c, xs, e))
    ensures forall m | 0 <= m <= |xs| :: AllFloors(cfg, WaiterFloors(xs, e, m))
  {
    forall m | 0 <= m <= |xs|
      ensures AllFloors(cfg, WaiterFloors(xs, e, m))
    {
      WaiterFloorsMembers(cfg, xs, e, m);
    }
    if c.riding != [] {
      forall i | 0 <= i < |c.riding|
        ensures IsFloor(cfg, RiderFloors(xs, c.riding)[i])
      {
        assert c.riding[i] in c.riding;
      }
    }
  }

  lemma ScanRidersStep(cfg: Config, c: Car, e: nat, xs: seq<Passenger>)
    requires c.pc.ScanRiders? && OnCourse(c, e, xs) && ListOk(e, c.riding, |xs|)
    ensures var r := PlanStep(cfg, e, c, xs);
      r.Go? && r.next.riding == c.riding && r.next.at == c.at && OnCourse(r.next, e, xs)
  {
    var floors := RiderFloors(xs, c.riding);
    if c.i + 1 < |c.riding| {
      assert c.riding[c.i + 1] in c.riding;
      assert floors[..c.i + 2][..c.i + 1] == floors[..c.i + 1];
    } else {
      assert floors[..c.i + 1] == floors;
    }
  }

  lemma ScanWaitersStep(cfg: Config, c: Car, e: nat, xs: seq<Passenger>)
    requires c.pc.ScanWaiters? && OnCourse(c, e, xs)
    requires forall p | 0 <= p < |xs| :: PassengerOk(cfg, p, xs[p])
    ensures var r := PlanStep(cfg, e, c, xs);
      r.Go? && r.next.riding == c.riding && r.next.at == c.at && OnCourse(r.next, e, xs)
  {
    if c.i < |xs| {
      var seen := WaiterFloors(xs, e, c.i);
      if AsksFor(xs[c.i], e) {
        NearestOfOneMore(seen, xs[c.i].from, c.at);
        NeverNone(cfg, xs, e, c.i, c.at);
      } else {
        assert WaiterFloors(xs, e, c.i + 1) == seen;
      }
    }
  }

  /** The sentinel is not a floor, so it means that nobody waits. */
  lemma NeverNone(cfg: Config, xs: seq<Passenger>, e: nat, m: nat, at: int)
    requires m <= |xs|
    requires forall p | 0 <= p < |xs| :: PassengerOk(cfg, p, xs[p])
    ensures NearestOrNone(WaiterFloors(xs, e, m), at) == NO_TARGET <==> WaiterFloors(xs, e, m) == []
  {
    var seen := WaiterFloors(xs, e, m);
    if seen != [] {
      WaiterFloorsMembers(cfg, xs, e, m);
      NearestIsLeast(seen, at);
    }
  }

  lemma GateStep(cfg: Config, c: Car, e: nat, xs: seq<Passenger>)
    requires c.pc.Gate? && c.start >= 3 && ListOk(e, c.riding, |xs|)
    ensures var r := PlanStep(cfg, e, c, xs);
      r.Go? && r.next.riding == c.riding && r.next.at == c.at && OnCourse(r.next, e, xs)
  {
    if c.riding != [] {
      assert c.riding[0] in c.riding;
      assert RiderFloors(xs, c.riding)[..1] == [xs[c.riding[0]].to];
    }
  }

  /** Planning turns keep the course; the car neither moves nor changes its riders. */
  lemma PlanKeepsCourse(cfg: Config, c: Car, e: nat, xs: seq<Passenger>)
    requires Planning(c.pc) && OnCourse(c, e, xs) && ListOk(e, c.riding, |xs|)
    requires (c.direction == 1 || c.direction == -1) && IsFloor(cfg, c.at) && !c.ready
    requires forall p | 0 <= p < |xs| :: PassengerOk(cfg, p, xs[p])
    ensures var r := PlanStep(cfg, e, c, xs);
      r.Go? ==> r.next.riding == c.riding && r.next.at == c.at && OnCourse(r.next, e, xs)
  {
    match c.pc
    case Gate => if c.start >= 3 { GateStep(cfg, c, e, xs); }
    case ScanRiders => ScanRidersStep(cfg, c, e, xs);
    case ScanWaiters => ScanWaitersStep(cfg, c, e, xs);
    case _ =>
      if Asked(c, xs, e) != [] {
        AskedAreFloors(cfg, c, xs, e);
        NearestIsLeast(Asked(c, xs, e), c.at);
      }
  }

  // ---------------------------------------------------------------- calls still needed

  /** Distance from a floor to the nearest floor asked for. */
  function Gap(asked: seq<int>, from: int): nat
    requires asked != []
  {
    Distance(Nearest(asked, from), from)
  }

  /** Calls enough for `owed` entries and exits when the next is `gap` floors away. */
  function Rounds(floors: nat, owed: nat, gap: nat): (calls: nat)
    requires owed > 0
    ensures calls > gap
  {
    (owed - 1) * floors + gap + 1
  }

  /** The floor the car will be at when the current call is over. */
  function NextFloor(c: Car): int {
    if c.pc.Settle? then c.refFloor else c.at + c.direction
  }

  /** How many more calls car `c` completes, at most, before all is delivered. */
  function Bound(floors: nat, c: Car, asked: seq<int>, owed: nat, holding: nat): nat {
    if holding > 0 then owed * floors + 1
    else if owed == 0 || asked == [] then 0
    else if Opening(c.pc) || c.ready then Rounds(floors, owed, 0)
    else if Outside(c.pc) || Planning(c.pc) then Rounds(floors, owed, Gap(asked, c.refFloor))
    else Rounds(floors, owed, Gap(asked, NextFloor(c))) + 1
  }

  function Left(floors: nat, c: Car, xs: seq<Passenger>, e: nat): nat {
    Bound(floors, c, Asked(c, xs, e), Total(Owed, xs, e), Total(Holding, xs, e))
  }

  function CallsLeft(cfg: Config, s: State, e: nat): nat
    requires e < |s.cars|
  {
    Left(cfg.floors, s.cars[e], s.passengers, e)
  }

  lemma GapSmall(cfg: Config, asked: seq<int>, f: int)
    requires asked != [] && AllFloors(cfg, asked) && IsFloor(cfg, f)
    ensures Gap(asked, f) < cfg.floors
  {
    NearestIsLeast(asked, f);
  }

  /** Rounds never exceed one full sweep of the building per entry or exit. */
  lemma RoundsWithin(floors: nat, owed: nat, gap: nat)
    requires owed > 0 && gap < floors
    ensures Rounds(floors, owed, gap) <= owed * floors
  {
    assert (owed - 1) * floors + floors == owed * floors;
  }

  /** What a turn may do to the calls left: a completed call uses one up, no other
      turn adds to them. `asked` is what the car is asked for, before and after. */
  ghost predicate UsesUp(floors: nat, c: Car, next: Car, asked: seq<int>, owed: nat) {
    Bound(floors, next, asked, owed, 0) + One(c.pc.Settle? && owed > 0 && asked != [])
      <= Bound(floors, c, asked, owed, 0)
  }

  /** Deciding: the door opens where the nearest floor asked for is this one, and
      otherwise the car is headed one floor closer to it. */
  lemma DecideBound(cfg: Config, e: nat, c: Car, xs: seq<Passenger>, owed: nat)
    requires c.pc.Decide? && CarOk(cfg, c) && OnCourse(c, e, xs)
    requires AllFloors(cfg, Asked(c, xs, e))
    ensures var r := PlanStep(cfg, e, c, xs);
      r.Go? ==> UsesUp(cfg.floors, c, r.next, Asked(c, xs, e), owed)
  {
    var asked := Asked(c, xs, e);
    if asked != [] {
      NearestIsLeast(asked, c.at);
      DecidesNearest(cfg, c, asked, owed);
    }
  }

  lemma DecidesNearest(cfg: Config, c: Car, asked: seq<int>, owed: nat)
    requires c.pc.Decide? && CarOk(cfg, c) && asked != [] && AllFloors(cfg, asked)
    requires c.waitAt == Nearest(asked, c.at) && c.waitAt != NO_TARGET
    requires c.waitAt > c.at ==> c.direction == 1
    requires c.waitAt < c.at ==> c.direction == -1
    ensures UsesUp(cfg.floors, c, c.(pc := if c.waitAt == c.at then OpenCheck1 else MoveCheck1), asked, owed)
  {
    if c.waitAt != c.at {
      Approach(asked, c.at, NextFloor(c));
    }
  }

  lemma PlanStepBound(cfg: Config, e: nat, c: Car, xs: seq<Passenger>, owed: nat)
    requires Planning(c.pc) && CarOk(cfg, c) && OnCourse(c, e, xs) && ListOk(e, c.riding, |xs|)
    requires forall p | 0 <= p < |xs| :: PassengerOk(cfg, p, xs[p])
    ensures var r := PlanStep(cfg, e, c, xs);
      r.Go? ==> r.next.riding == c.riding && UsesUp(cfg.floors, c, r.next, Asked(c, xs, e), owed)
  {
    if c.pc.Decide? {
      AskedAreFloors(cfg, c, xs, e);
      DecideBound(cfg, e, c, xs, owed);
    } else {
      var r := PlanStep(cfg, e, c, xs);
      assert r.Go? ==> Planning(r.next.pc) && r.next.refFloor == c.refFloor && r.next.ready == c.ready;
    }
  }

  lemma DoorStepBound(cfg: Config, e: nat, c: Car, asked: seq<int>, owed: nat)
    requires !Planning(c.pc) && !Moving(c.pc) && !Outside(c.pc)
    requires CarOk(cfg, c) && (c.ready ==> !c.passengerReady)
    ensures var r := DoorStep(e, c);
      r.Go? ==>
        && r.next.riding == c.riding && r.next.at == c.at && UsesUp(cfg.floors, c, r.next, asked, owed)
        && (Opening(r.next.pc) || r.next.ready ==> Opening(c.pc) || c.ready) && !Planning(r.next.pc)
  {
  }

  /** On its way the car stays headed for the same floor. */
  lemma SameNextFloor(cfg: Config, e: nat, c: Car)
    requires Moving(c.pc) && CarOk(cfg, c)
    ensures var r := MoveStep(cfg, e, c);
      r.Go? ==>
        && r.next.riding == c.riding && !r.next.ready && !Planning(r.next.pc) && !Opening(r.next.pc)
        && if c.pc.Settle? then Outside(r.next.pc) && r.next.refFloor == NextFloor(c)
           else Moving(r.next.pc) && NextFloor(r.next) == NextFloor(c)
  {
  }

  lemma MoveStepBound(cfg: Config, e: nat, c: Car, asked: seq<int>, owed: nat)
    requires Moving(c.pc) && CarOk(cfg, c)
    ensures var r := MoveStep(cfg, e, c);
      r.Go? ==>
        && r.next.riding == c.riding && UsesUp(cfg.floors, c, r.next, asked, owed)
        && !Opening(r.next.pc) && !r.next.ready && !Planning(r.next.pc)
  {
    SameNextFloor(cfg, e, c);
  }

  lemma ElevatorStepBound(cfg: Config, e: nat, c: Car, xs: seq<Passenger>, stop: bool, owed: nat)
    requires CarOk(cfg, c) && OnCourse(c, e, xs) && ListOk(e, c.riding, |xs|)
    requires forall p | 0 <= p < |xs| :: PassengerOk(cfg, p, xs[p])
    requires c.ready ==> !c.passengerReady
    ensures var r := ElevatorStep(cfg, e, c, xs, stop);
      r.Go? ==> r.next.riding == c.riding && OnCourse(r.next, e, xs)
                && UsesUp(cfg.floors, c, r.next, Asked(c, xs, e), owed)
  {
    var asked := Asked(c, xs, e);
    if Planning(c.pc) {
      PlanKeepsCourse(cfg, c, e, xs);
      PlanStepBound(cfg, e, c, xs, owed);
    } else if Moving(c.pc) {
      MoveStepBound(cfg, e, c, asked, owed);
    } else if !Outside(c.pc) {
      DoorStepBound(cfg, e, c, asked, owed);
    }
  }

  // ---------------------------------------------------------------- passenger turns

  /** Everything known about a state in which all have registered and car `e` is on
      its course. */
  ghost predicate Underway(cfg: Config, s: State, e: nat) {
    && Sensible(cfg) && e < CARS && Inv(cfg, s) && AllSettled(s.passengers, e)
    && OnCourse(s.cars[e], e, s.passengers)
  }

  lemma SettledStep(cfg: Config, p: nat, x: Passenger, c: Car, stop: bool, pick: nat)
    requires Settled(p, x) && PassengerOk(cfg, p, x) && cfg.floors > 0
    requires stop ==> x.pc.Finished?
    requires BeforeExit(x.pc) ==> x.destination == c.refFloor
    ensures var r := PassengerStep(cfg, p, x, c, stop, pick);
      r.Go? ==> Settled(p, r.next.0) && r.next.0.from == x.from && r.next.0.to == x.to
                && (x.pc.MarkRiding? || r.next.0.status == x.status)
  {
    LastTripStep(cfg, p, x, c, stop, pick);
    var r := PassengerStep(cfg, p, x, c, stop, pick);
    if Registering(x.pc) {
    } else if x.pc.AwaitEntry? || Entering(x.pc) {
    } else if x.pc.AwaitExit? || Leaving(x.pc) {
    } else {
    }
  }

  /** A passenger writes the name of no other car into its record. */
  lemma RecordStep(cfg: Config, p: nat, x: Passenger, c: Car, stop: bool, pick: nat)
    ensures var r := PassengerStep(cfg, p, x, c, stop, pick);
      r.Go? ==> r.next.0.elevator == x.elevator || r.next.0.elevator == CarOf(p)
  {
  }

  /** What stays of a passenger's record, as far as car `e` is concerned. */
  predicate RecordKept(p: nat, x: Passenger, y: Passenger, e: nat) {
    && SettledFor(p, y, e)
    && (CarOf(p) == e ==> y.from == x.from && y.to == x.to)
    && (AsksFor(y, e) <==> AsksFor(x, e) && !x.pc.MarkRiding?)
  }

  lemma PassengerTurnKeepsSettled(cfg: Config, s: State, p: nat, pick: nat, e: nat)
    requires Sensible(cfg) && Inv(cfg, s) && p < |s.passengers| && SettledFor(p, s.passengers[p], e)
    ensures var r := PassengerStep(cfg, p, s.passengers[p], s.cars[CarOf(p)], s.stop, pick);
      r.Go? ==> RecordKept(p, s.passengers[p], r.next.0, e)
  {
    var x, c := s.passengers[p], s.cars[CarOf(p)];
    assert Tied(p, x, c) && PassengerOk(cfg, p, x);
    RecordStep(cfg, p, x, c, s.stop, pick);
    if CarOf(p) == e {
      HolderMeetsCar(cfg, s, p);
      SettledStep(cfg, p, x, c, s.stop, pick);
    }
  }

  /** What a passenger does not write, its car is asked for as before. */
  lemma AskedFrame(c: Car, xs: seq<Passenger>, p: nat, x: Passenger, e: nat)
    requires p < |xs| && (p in c.riding ==> x.to == xs[p].to)
    requires AsksFor(x, e) <==> AsksFor(xs[p], e)
    requires AsksFor(x, e) ==> x.from == xs[p].from
    ensures Asked(c, xs[p := x], e) == Asked(c, xs, e)
    ensures OnCourse(c, e, xs) ==> OnCourse(c, e, xs[p := x])
  {
    var ys := xs[p := x];
    WaiterFloorsFrame(xs, p, x, e, |xs|);
    if c.i <= |xs| {
      WaiterFloorsFrame(xs, p, x, e, c.i);
    }
    assert RiderFloors(ys, c.riding) == RiderFloors(xs, c.riding);
  }

  /** A change of a passenger that car `e` does not notice. */
  lemma UnnoticedChange(floors: nat, c: Car, xs: seq<Passenger>, p: nat, x: Passenger, e: nat)
    requires p < |xs| && (p in c.riding ==> x.to == xs[p].to)
    requires AsksFor(x, e) <==> AsksFor(xs[p], e)
    requires AsksFor(x, e) ==> x.from == xs[p].from
    requires CarOf(p) == e ==> Weight(Owed, x.pc) == Weight(Owed, xs[p].pc)
                               && Weight(Holding, x.pc) == Weight(Holding, xs[p].pc)
    requires OnCourse(c, e, xs)
    ensures OnCourse(c, e, xs[p := x]) && Left(floors, c, xs[p := x], e) == Left(floors, c, xs, e)
  {
    AskedFrame(c, xs, p, x, e);
    SumAfterUpdate(Owed, xs, e, |xs|, p, x);
    SumAfterUpdate(Holding, xs, e, |xs|, p, x);
  }

  /** A passenger takes the offered token: one entry or exit fewer to come. */
  lemma TokenTaken(floors: nat, c: Car, next: Car, xs: seq<Passenger>, p: nat, x: Passenger)
    requires p < |xs| && OnCourse(c, CarOf(p), xs)
    requires c.pc.AwaitPassenger? && c.ready && Total(Holding, xs, CarOf(p)) == 0
    requires Weight(Owed, x.pc) + 1 == Weight(Owed, xs[p].pc)
    requires Weight(Holding, x.pc) == 1 && Weight(Holding, xs[p].pc) == 0
    requires next.pc.AwaitPassenger? && !next.ready
    ensures OnCourse(next, CarOf(p), xs[p := x])
    ensures Left(floors, next, xs[p := x], CarOf(p)) <= Left(floors, c, xs, CarOf(p))
  {
    var e := CarOf(p);
    ShareAtMostSum(Owed, xs, e, |xs|, p);
    SumAfterUpdate(Owed, xs, e, |xs|, p, x);
    SumAfterUpdate(Holding, xs, e, |xs|, p, x);
  }

  /** The holder of the token goes on, or hands it back; no call is lost by it. */
  lemma TokenKept(cfg: Config, next: Car, c: Car, xs: seq<Passenger>, p: nat, x: Passenger)
    requires p < |xs| && Weight(Owed, x.pc) == Weight(Owed, xs[p].pc)
    requires Weight(Holding, xs[p].pc) == 1
    requires next.pc.AwaitPassenger? && !next.ready
    requires IsFloor(cfg, NextFloor(next)) && AllFloors(cfg, Asked(next, xs[p := x], CarOf(p)))
    ensures OnCourse(next, CarOf(p), xs[p := x])
    ensures Left(cfg.floors, next, xs[p := x], CarOf(p)) <= Left(cfg.floors, c, xs, CarOf(p))
  {
    var e, ys := CarOf(p), xs[p := x];
    ShareAtMostSum(Holding, xs, e, |xs|, p);
    SumAfterUpdate(Owed, xs, e, |xs|, p, x);
    var owed, asked := Total(Owed, ys, e), Asked(next, ys, e);
    if owed > 0 && asked != [] {
      GapSmall(cfg, asked, NextFloor(next));
      RoundsWithin(cfg.floors, owed, Gap(asked, NextFloor(next)));
    }
  }

  /** Outside its registration a settled passenger that neither waits for the car
      nor holds the token changes nothing a car can see. */
  lemma IdleStep(cfg: Config, p: nat, x: Passenger, c: Car, stop: bool, pick: nat)
    requires x.pc.NextTrip? || HasExited(x.pc)
    requires x.trips == 0
    ensures var r := PassengerStep(cfg, p, x, c, stop, pick);
      r.Go? ==> r.next.1 == c && Weight(Owed, r.next.0.pc) == Weight(Owed, x.pc) == 0
                && Weight(Holding, r.next.0.pc) == Weight(Holding, x.pc) == 0
  {
  }

  lemma TakingStep(cfg: Config, p: nat, x: Passenger, c: Car, stop: bool, pick: nat)
    requires x.pc.AwaitEntry? || x.pc.AwaitExit?
    ensures var r := PassengerStep(cfg, p, x, c, stop, pick);
      r.Go? ==> c.ready && r.next.1.pc == c.pc && !r.next.1.ready && Is(Holding, r.next.0.pc)
                && Weight(Owed, r.next.0.pc) + 1 == Weight(Owed, x.pc)
  {
  }

  /** The car neither leaves nor offers its token, and nothing more or less is owed. */
  predicate KeepsCarWaiting(x: Passenger, c: Car, r: Outcome<(Passenger, Car)>) {
    r.Go? ==>
      && r.next.1.pc == c.pc && r.next.1.ready == c.ready
      && r.next.1.at == c.at && r.next.1.direction == c.direction
      && Weight(Owed, r.next.0.pc) == Weight(Owed, x.pc)
  }

  lemma EnteringStep(p: nat, x: Passenger, c: Car)
    requires Entering(x.pc)
    ensures KeepsCarWaiting(x, c, EntryStep(p, x, c))
  {
  }

  lemma LeavingStep(p: nat, x: Passenger, c: Car)
    requires Leaving(x.pc)
    ensures KeepsCarWaiting(x, c, ExitStep(p, x, c))
  {
  }

  lemma HoldingStep(cfg: Config, p: nat, x: Passenger, c: Car, stop: bool, pick: nat)
    requires Is(Holding, x.pc)
    ensures KeepsCarWaiting(x, c, PassengerStep(cfg, p, x, c, stop, pick))
  {
    if Entering(x.pc) {
      EnteringStep(p, x, c);
    } else {
      LeavingStep(p, x, c);
    }
  }

  /** One turn of another car's passenger, seen from car `e`. */
  lemma OtherPassengerTurnBound(cfg: Config, s: State, p: nat, pick: nat, e: nat)
    requires Underway(cfg, s, e) && p < |s.passengers| && CarOf(p) != e
    ensures var r := PassengerStep(cfg, p, s.passengers[p], s.cars[CarOf(p)], s.stop, pick);
      r.Go? ==>
        && OnCourse(s.cars[e], e, s.passengers[p := r.next.0])
        && Left(cfg.floors, s.cars[e], s.passengers[p := r.next.0], e) <= CallsLeft(cfg, s, e)
  {
    var r := PassengerStep(cfg, p, s.passengers[p], s.cars[CarOf(p)], s.stop, pick);
    PassengerTurnKeepsSettled(cfg, s, p, pick, e);
    if r.Go? {
      assert ListOk(e, s.cars[e].riding, |s.passengers|);
      UnnoticedChange(cfg.floors, s.cars[e], s.passengers, p, r.next.0, e);
    }
  }

  /** What the passenger's turn leaves to its car's course. */
  ghost predicate CourseKept(cfg: Config, s: State, p: nat, r: Outcome<(Passenger, Car)>)
    requires p < |s.passengers| && |s.cars| == CARS
  {
    r.Go? ==>
      var xs := s.passengers[p := r.next.0];
      && OnCourse(r.next.1, CarOf(p), xs)
      && Left(cfg.floors, r.next.1, xs, CarOf(p)) <= CallsLeft(cfg, s, CarOf(p))
  }

  lemma AskedFloorsAfter(cfg: Config, s: State, p: nat, pick: nat)
    requires Sensible(cfg) && Inv(cfg, s) && p < |s.passengers|
    ensures var e, r := CarOf(p), PassengerStep(cfg, p, s.passengers[p], s.cars[CarOf(p)], s.stop, pick);
      r.Go? ==> AllFloors(cfg, Asked(r.next.1, s.passengers[p := r.next.0], e))
  {
    var e := CarOf(p);
    var r := PassengerStep(cfg, p, s.passengers[p], s.cars[e], s.stop, pick);
    PassengerTurnKeepsInv(cfg, s, p, pick);
    if r.Go? {
      var t := Apply(cfg, s, PassengerTurn(p, pick));
      assert t.passengers == s.passengers[p := r.next.0] && t.cars[e] == r.next.1;
      AskedAreFloors(cfg, t.cars[e], t.passengers, e);
    }
  }

  lemma HeldCourse(cfg: Config, s: State, p: nat, pick: nat)
    requires Sensible(cfg) && Inv(cfg, s) && p < |s.passengers|
    requires Is(Holding, s.passengers[p].pc)
    ensures CourseKept(cfg, s, p, PassengerStep(cfg, p, s.passengers[p], s.cars[CarOf(p)], s.stop, pick))
  {
    var c, xs := s.cars[CarOf(p)], s.passengers;
    var r := PassengerStep(cfg, p, xs[p], c, s.stop, pick);
    HolderMeetsCar(cfg, s, p);
    HoldingStep(cfg, p, xs[p], c, s.stop, pick);
    AskedFloorsAfter(cfg, s, p, pick);
    if r.Go? {
      TokenKept(cfg, r.next.1, c, xs, p, r.next.0);
    }
  }

  lemma TakenCourse(cfg: Config, s: State, p: nat, pick: nat)
    requires Underway(cfg, s, CarOf(p)) && p < |s.passengers|
    requires s.passengers[p].pc.AwaitEntry? || s.passengers[p].pc.AwaitExit?
    ensures CourseKept(cfg, s, p, PassengerStep(cfg, p, s.passengers[p], s.cars[CarOf(p)], s.stop, pick))
  {
    var e, xs := CarOf(p), s.passengers;
    var r := PassengerStep(cfg, p, xs[p], s.cars[e], s.stop, pick);
    assert CountsOk(s.cars[e], TallyOf(xs, e));
    TakingStep(cfg, p, xs[p], s.cars[e], s.stop, pick);
    if r.Go? {
      TokenTaken(cfg.floors, s.cars[e], r.next.1, xs, p, r.next.0);
    }
  }

  lemma IdleCourse(cfg: Config, s: State, p: nat, pick: nat)
    requires Underway(cfg, s, CarOf(p)) && p < |s.passengers| && SettledFor(p, s.passengers[p], CarOf(p))
    requires !s.passengers[p].pc.AwaitEntry? && !s.passengers[p].pc.AwaitExit? && !Is(Holding, s.passengers[p].pc)
    ensures CourseKept(cfg, s, p, PassengerStep(cfg, p, s.passengers[p], s.cars[CarOf(p)], s.stop, pick))
  {
    var e, xs := CarOf(p), s.passengers;
    var r := PassengerStep(cfg, p, xs[p], s.cars[e], s.stop, pick);
    PassengerTurnKeepsSettled(cfg, s, p, pick, e);
    IdleStep(cfg, p, xs[p], s.cars[e], s.stop, pick);
    if r.Go? {
      UnnoticedChange(cfg.floors, s.cars[e], xs, p, r.next.0, e);
    }
  }

  /** And of one of its own. */
  lemma OwnPassengerTurnBound(cfg: Config, s: State, p: nat, pick: nat)
    requires Underway(cfg, s, CarOf(p)) && p < |s.passengers|
    ensures CourseKept(cfg, s, p, PassengerStep(cfg, p, s.passengers[p], s.cars[CarOf(p)], s.stop, pick))
  {
    var x := s.passengers[p];
    if x.pc.AwaitEntry? || x.pc.AwaitExit? {
      TakenCourse(cfg, s, p, pick);
    } else if Is(Holding, x.pc) {
      HeldCourse(cfg, s, p, pick);
    } else {
      assert SettledFor(p, x, CarOf(p));
      IdleCourse(cfg, s, p, pick);
    }
  }

  /** One turn of passenger `p`, seen from car `e`. */
  lemma PassengerTurnBound(cfg: Config, s: State, p: nat, pick: nat, e: nat)
    requires Underway(cfg, s, e) && p < |s.passengers|
    ensures var r := PassengerStep(cfg, p, s.passengers[p], s.cars[CarOf(p)], s.stop, pick);
      r.Go? ==>
        var c := if CarOf(p) == e then r.next.1 else s.cars[e];
        && OnCourse(c, e, s.passengers[p := r.next.0])
        && Left(cfg.floors, c, s.passengers[p := r.next.0], e) <= CallsLeft(cfg, s, e)
  {
    if CarOf(p) == e {
      OwnPassengerTurnBound(cfg, s, p, pick);
    } else {
      OtherPassengerTurnBound(cfg, s, p, pick, e);
    }
  }

  // ---------------------------------------------------------------- any turn

  /** The turn ends a call of the scheduler by car `e`. */
  predicate CompletesCall(s: State, a: Action, e: nat) {
    a == ElevatorTurn(e) && e < |s.cars| && s.cars[e].pc.Settle?
  }

  /** A completed call leaves one call fewer, any other turn no more than before. */
  ghost predicate FewerCalls(cfg: Config, s: State, a: Action, e: nat)
    requires e < |s.cars| && |Apply(cfg, s, a).cars| == |s.cars|
  {
    var t := Apply(cfg, s, a);
    CallsLeft(cfg, t, e) == 0
    || CallsLeft(cfg, t, e) + One(CompletesCall(s, a, e)) <= CallsLeft(cfg, s, e)
  }

  lemma OwnElevatorStep(cfg: Config, e: nat, c: Car, xs: seq<Passenger>, stop: bool)
    requires CarOk(cfg, c) && CountsOk(c, TallyOf(xs, e)) && OnCourse(c, e, xs) && ListOk(e, c.riding, |xs|)
    requires forall p | 0 <= p < |xs| :: PassengerOk(cfg, p, xs[p])
    ensures var r := ElevatorStep(cfg, e, c, xs, stop);
      r.Go? ==> OnCourse(r.next, e, xs)
                && (Left(cfg.floors, r.next, xs, e) == 0
                    || Left(cfg.floors, r.next, xs, e) + One(c.pc.Settle?) <= Left(cfg.floors, c, xs, e))
  {
    if Total(Holding, xs, e) > 0 {
      assert c.pc.AwaitPassenger? && !c.passengerReady;
    } else {
      ElevatorStepBound(cfg, e, c, xs, stop, Total(Owed, xs, e));
    }
  }

  lemma OwnElevatorTurn(cfg: Config, s: State, e: nat)
    requires Underway(cfg, s, e)
    ensures var t := Apply(cfg, s, ElevatorTurn(e));
      |t.cars| == CARS && OnCourse(t.cars[e], e, t.passengers) && FewerCalls(cfg, s, ElevatorTurn(e), e)
  {
    OwnElevatorStep(cfg, e, s.cars[e], s.passengers, s.stop);
    ElevatorStepOk(cfg, e, s.cars[e], TallyOf(s.passengers, e), s.passengers, s.stop) by {
      TallyConsistent(s.passengers, e);
    }
  }

  lemma AnyPassengerTurn(cfg: Config, s: State, p: nat, pick: nat, e: nat)
    requires Underway(cfg, s, e)
    ensures var t := Apply(cfg, s, PassengerTurn(p, pick));
      |t.cars| == CARS && AllSettled(t.passengers, e) && OnCourse(t.cars[e], e, t.passengers)
      && CallsLeft(cfg, t, e) <= CallsLeft(cfg, s, e)
  {
    if p < |s.passengers| {
      PassengerTurnKeepsSettled(cfg, s, p, pick, e);
      PassengerTurnBound(cfg, s, p, pick, e);
    }
  }

  lemma Turn(cfg: Config, s: State, a: Action, e: nat)
    requires Underway(cfg, s, e)
    ensures Underway(cfg, Apply(cfg, s, a), e) && FewerCalls(cfg, s, a, e)
  {
    TurnKeepsInv(cfg, s, a);
    match a
    case PassengerTurn(p, pick) => AnyPassengerTurn(cfg, s, p, pick, e);
    case ElevatorTurn(d) =>
      if d == e {
        OwnElevatorTurn(cfg, s, e);
      } else {
        OtherElevatorTurn(cfg, s, d, e);
      }
    case MainStops =>
  }

  lemma OtherElevatorTurn(cfg: Config, s: State, d: nat, e: nat)
    requires |s.cars| == CARS && e < CARS && d != e
    ensures var t := Apply(cfg, s, ElevatorTurn(d));
      && |t.cars| == CARS && t.cars[e] == s.cars[e] && t.passengers == s.passengers
      && FewerCalls(cfg, s, ElevatorTurn(d), e)
  {
  }

  // ---------------------------------------------------------------- any run

  /** Calls of the scheduler that car `e` completes during a run. */
  function Calls(cfg: Config, s: State, schedule: seq<Action>, e: nat): nat
    decreases |schedule|
  {
    if schedule == [] then 0
    else One(CompletesCall(s, schedule[0], e)) + Calls(cfg, Apply(cfg, s, schedule[0]), schedule[1..], e)
  }

  /** Every passenger of car `e` has got off where it wanted to. */
  ghost predicate Delivered(s: State, e: nat) {
    forall p | 0 <= p < |s.passengers| && CarOf(p) == e ::
      var x := s.passengers[p];
      x.state == EXITED && x.at == x.destination && (x.pc.NextTrip? || HasExited(x.pc))
  }

  /** A passenger its car has nothing more to do for has come back from its trip. */
  lemma NothingLeftFor(cfg: Config, c: Car, xs: seq<Passenger>, p: nat)
    requires p < |xs| && Settled(p, xs[p]) && Tied(p, xs[p], c)
    requires forall q | 0 <= q < |xs| :: PassengerOk(cfg, q, xs[q])
    requires Total(Holding, xs, CarOf(p)) == 0
    requires Total(Owed, xs, CarOf(p)) == 0 || Asked(c, xs, CarOf(p)) == []
    ensures xs[p].pc.NextTrip? || HasExited(xs[p].pc)
  {
    var e := CarOf(p);
    NobodyHolds(xs, e, p);
    ShareAtMostSum(Owed, xs, e, |xs|, p);
    if c.riding != [] {
      assert |RiderFloors(xs, c.riding)| > 0;
    } else {
      WaiterFloorsMembers(cfg, xs, e, |xs|);
    }
  }

  lemma NoneLeft(floors: nat, c: Car, xs: seq<Passenger>, e: nat)
    requires Left(floors, c, xs, e) == 0
    ensures Total(Holding, xs, e) == 0
    ensures Total(Owed, xs, e) == 0 || Asked(c, xs, e) == []
  {
  }

  /** When no call is left to do, everybody has been delivered. */
  lemma NothingLeft(cfg: Config, s: State, e: nat)
    requires Underway(cfg, s, e) && CallsLeft(cfg, s, e) == 0
    ensures Delivered(s, e)
  {
    var c, xs := s.cars[e], s.passengers;
    NoneLeft(cfg.floors, c, xs, e);
    forall p | 0 <= p < |xs| && CarOf(p) == e
      ensures Settled(p, xs[p]) && (xs[p].pc.NextTrip? || HasExited(xs[p].pc))
    {
      assert Tied(p, xs[p], c) && SettledFor(p, xs[p], e);
      NothingLeftFor(cfg, c, xs, p);
    }
  }

  lemma {:induction false} RunUsesUpCalls(cfg: Config, s: State, schedule: seq<Action>, e: nat)
    requires Underway(cfg, s, e)
    ensures Underway(cfg, Run(cfg, s, schedule), e)
    ensures Calls(cfg, s, schedule, e) >= CallsLeft(cfg, s, e) ==> CallsLeft(cfg, Run(cfg, s, schedule), e) == 0
    decreases |schedule|
  {
    if schedule != [] {
      Turn(cfg, s, schedule[0], e);
      RunUsesUpCalls(cfg, Apply(cfg, s, schedule[0]), schedule[1..], e);
    }
  }

  /** How many of the first `m` passengers belong to car `e`. */
  function PassengersOf(e: nat, m: nat): nat {
    if m == 0 then 0 else PassengersOf(e, m - 1) + One(CarOf(m - 1) == e)
  }

  /** Passengers are dealt out in turn, so car 0 has as many as any other. */
  lemma {:induction false} PassengersOfIs(e: nat, m: nat)
    requires e < CARS
    ensures PassengersOf(e, m) == (m + 3 - e) / 4
  {
    if m > 0 {
      PassengersOfIs(e, m - 1);
    }
  }

  lemma {:induction false} AtMostTwoOwedEach(xs: seq<Passenger>, e: nat, m: nat)
    requires m <= |xs|
    ensures Sum(Owed, xs, e, m) <= 2 * PassengersOf(e, m)
  {
    if m > 0 {
      AtMostTwoOwedEach(xs, e, m - 1);
    }
  }

  /** Not in the middle of a call of the scheduler. */
  predicate BetweenCalls(pc: CarPc) {
    pc.Top? || pc.Gate?
  }

  lemma BoundAtCall(cfg: Config, c: Car, xs: seq<Passenger>, e: nat)
    requires BetweenCalls(c.pc)
    requires Total(Holding, xs, e) == 0 && !c.ready && IsFloor(cfg, c.refFloor)
    requires AllFloors(cfg, Asked(c, xs, e))
    ensures Left(cfg.floors, c, xs, e) <= 2 * PassengersOf(e, |xs|) * cfg.floors
  {
    var owed, asked := Total(Owed, xs, e), Asked(c, xs, e);
    AtMostTwoOwedEach(xs, e, |xs|);
    MulMonotone(owed, 2 * PassengersOf(e, |xs|), cfg.floors);
    if owed > 0 && asked != [] {
      GapSmall(cfg, asked, c.refFloor);
      RoundsWithin(cfg.floors, owed, Gap(asked, c.refFloor));
    }
  }

  lemma BoundBetweenCalls(cfg: Config, s: State, e: nat)
    requires Underway(cfg, s, e) && BetweenCalls(s.cars[e].pc)
    ensures CallsLeft(cfg, s, e) <= 2 * PassengersOf(e, cfg.passengers) * cfg.floors
  {
    assert CountsOk(s.cars[e], TallyOf(s.passengers, e));
    AskedAreFloors(cfg, s.cars[e], s.passengers, e);
    BoundAtCall(cfg, s.cars[e], s.passengers, e);
  }

  lemma MulMonotone(a: nat, b: nat, k: nat)
    requires a <= b
    ensures a * k <= b * k
  {
    assert b * k == a * k + (b - a) * k;
  }

  /** Car `e` and its passengers, all of them registered, with the car anywhere in a call
      that may have begun before they were. */
  ghost predicate Complete(cfg: Config, s: State, e: nat) {
    Sensible(cfg) && e < CARS && Inv(cfg, s) && AllSettled(s.passengers, e)
  }

  lemma StaysSettled(cfg: Config, s: State, a: Action, e: nat)
    requires Sensible(cfg) && Inv(cfg, s) && AllSettled(s.passengers, e)
    ensures AllSettled(Apply(cfg, s, a).passengers, e)
  {
    if a.PassengerTurn? && a.p < |s.passengers| {
      PassengerTurnKeepsSettled(cfg, s, a.p, a.pick, e);
    }
  }

  lemma StaysComplete(cfg: Config, s: State, a: Action, e: nat)
    requires Complete(cfg, s, e)
    ensures Complete(cfg, Apply(cfg, s, a), e)
  {
    TurnKeepsInv(cfg, s, a);
    StaysSettled(cfg, s, a, e);
  }

  /** With all its passengers registered a car is on course from its next call on. */
  lemma OnCourseFromCall(cfg: Config, s: State, e: nat)
    requires Complete(cfg, s, e) && BetweenCalls(s.cars[e].pc)
    ensures Underway(cfg, s, e)
  {
    assert CarOk(cfg, s.cars[e]);
  }

  lemma SettleEndsCall(cfg: Config, s: State, e: nat)
    requires e < |s.cars| && s.ended == None && s.cars[e].pc.Settle?
    ensures |Apply(cfg, s, ElevatorTurn(e)).cars| == |s.cars| && Apply(cfg, s, ElevatorTurn(e)).cars[e].pc.Top?
  {
  }

  lemma CallOver(cfg: Config, s: State, a: Action, e: nat)
    requires Complete(cfg, s, e) && CompletesCall(s, a, e)
    ensures Underway(cfg, Apply(cfg, s, a), e) && Apply(cfg, s, a).cars[e].pc.Top?
  {
    StaysComplete(cfg, s, a, e);
    SettleEndsCall(cfg, s, e);
    OnCourseFromCall(cfg, Apply(cfg, s, a), e);
  }

  lemma DeliveredFromCall(cfg: Config, s: State, schedule: seq<Action>, e: nat)
    requires Underway(cfg, s, e) && BetweenCalls(s.cars[e].pc)
    requires Calls(cfg, s, schedule, e) >= 2 * PassengersOf(e, cfg.passengers) * cfg.floors
    ensures Delivered(Run(cfg, s, schedule), e)
  {
    BoundBetweenCalls(cfg, s, e);
    RunUsesUpCalls(cfg, s, schedule, e);
    NothingLeft(cfg, Run(cfg, s, schedule), e);
  }

  lemma {:induction false} CallInProgress(cfg: Config, s: State, schedule: seq<Action>, e: nat, enough: nat)
    requires Complete(cfg, s, e)
    requires enough == 2 * PassengersOf(e, cfg.passengers) * cfg.floors
    requires Calls(cfg, s, schedule, e) > enough
    ensures Delivered(Run(cfg, s, schedule), e)
    decreases |schedule|
  {
    if schedule != [] {
      var t := Apply(cfg, s, schedule[0]);
      if CompletesCall(s, schedule[0], e) {
        CallOver(cfg, s, schedule[0], e);
        DeliveredFromCall(cfg, t, schedule[1..], e);
      } else {
        StaysComplete(cfg, s, schedule[0], e);
        CallInProgress(cfg, t, schedule[1..], e, enough);
      }
    }
  }

  lemma RegisteredIsComplete(cfg: Config, s: State, e: nat)
    requires Sensible(cfg) && cfg.trips > 0 && Reachable(cfg, s)
    requires e < CARS && RegisteredFor(s, e)
    ensures Complete(cfg, s, e)
  {
    ReachableInv(cfg, s);
    RegisteredIsSettled(cfg, s, e);
  }

  lemma CompleteIsDelivered(cfg: Config, s: State, schedule: seq<Action>, e: nat, enough: nat)
    requires Complete(cfg, s, e)
    requires enough == 2 * PassengersOf(e, cfg.passengers) * cfg.floors
    requires Calls(cfg, s, schedule, e) >= enough + One(!BetweenCalls(s.cars[e].pc))
    ensures Delivered(Run(cfg, s, schedule), e)
  {
    if BetweenCalls(s.cars[e].pc) {
      OnCourseFromCall(cfg, s, e);
      DeliveredFromCall(cfg, s, schedule, e);
    } else {
      CallInProgress(cfg, s, schedule, e, enough);
    }
  }

  /** Bounded delivery. Take any reachable state in which the `n` passengers of car
      `e` have registered for their last trip and no unwritten record is taken for one
      of them. However the threads of all cars interleave from there, once car `e` has
      completed 2 * n * FLOORS calls all its passengers have been delivered, and they
      stay delivered. A call the car is in the middle of to begin with is not counted. */
  lemma BoundedDelivery(cfg: Config, s: State, schedule: seq<Action>, e: nat)
    requires Sensible(cfg) && cfg.trips > 0 && Reachable(cfg, s)
    requires e < CARS && RegisteredFor(s, e) && |s.cars| == CARS
    requires Calls(cfg, s, schedule, e)
          >= 2 * PassengersOf(e, cfg.passengers) * cfg.floors + One(!BetweenCalls(s.cars[e].pc))
    ensures Delivered(Run(cfg, s, schedule), e)
  {
    RegisteredIsComplete(cfg, s, e);
    MulMonotone(0, 2 * PassengersOf(e, cfg.passengers), cfg.floors);
    CompleteIsDelivered(cfg, s, schedule, e, 2 * PassengersOf(e, cfg.passengers) * cfg.floors);
  }
}
