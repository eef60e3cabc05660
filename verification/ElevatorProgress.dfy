/** On its course a car can always go on: at the open door some passenger may take the
    token, some thread can take a turn, and every turn counts against a bound. */
module ElevatorProgress {
  import opened NearestTarget
  import opened Elevator
  import opened Census
  import opened ElevatorSafety
  import opened ElevatorDelivery

  // ---------------------------------------------------------------- the door

  lemma {:induction false} SomeMember(kind: Kind, xs: seq<Passenger>, e: nat, m: nat) returns (p: nat)
    requires m <= |xs| && Sum(kind, xs, e, m) > 0
    ensures p < m && CarOf(p) == e && Weight(kind, xs[p].pc) > 0
  {
    if Share(kind, xs, e, m - 1) > 0 {
      p := m - 1;
    } else {
      p := SomeMember(kind, xs, e, m - 1);
    }
  }

  /** The wait condition of passenger `p` is true. */
  predicate MayTake(x: Passenger, c: Car) {
    || (x.pc.AwaitEntry? && c.ready && c.floor == x.origin && c.count < CAPACITY)
    || (x.pc.AwaitExit? && c.ready && c.floor == x.destination)
  }

  /** A rider who wants to get off at the floor the car chose. */
  lemma RiderMayTake(c: Car, xs: seq<Passenger>, e: nat) returns (p: nat)
    requires c.riding != [] && ListOk(e, c.riding, |xs|) && c.ready && c.at == c.floor
    requires Total(Holding, xs, e) == 0
    requires AllSettled(xs, e)
    requires forall q | 0 <= q < |xs| && CarOf(q) == e :: Tied(q, xs[q], c)
    requires Nearest(RiderFloors(xs, c.riding), c.at) == c.at
    ensures p < |xs| && CarOf(p) == e && MayTake(xs[p], c)
  {
    var floors := RiderFloors(xs, c.riding);
    NearestIsLeast(floors, c.at);
    var i :| 0 <= i < |floors| && floors[i] == c.at;
    p := c.riding[i];
    assert p in c.riding && SettledFor(p, xs[p], e);
    NobodyHolds(xs, e, p);
  }

  /** A passenger who waits at the floor the empty car chose. */
  lemma WaiterMayTake(cfg: Config, c: Car, xs: seq<Passenger>, e: nat) returns (p: nat)
    requires c.riding == [] && c.ready && c.at == c.floor && c.count < CAPACITY
    requires Total(Holding, xs, e) == 0
    requires AllSettled(xs, e) && forall q | 0 <= q < |xs| :: PassengerOk(cfg, q, xs[q])
    requires var asked := WaiterFloors(xs, e, |xs|); asked != [] && Nearest(asked, c.at) == c.at
    ensures p < |xs| && CarOf(p) == e && MayTake(xs[p], c)
  {
    WaiterFloorsMembers(cfg, xs, e, |xs|);
    NearestIsLeast(WaiterFloors(xs, e, |xs|), c.at);
    var q: int :| 0 <= q < |xs| && AsksFor(xs[q], e) && xs[q].from == c.at;
    p := q;
    assert SettledFor(p, xs[p], e);
    NobodyHolds(xs, e, p);
  }

  /** What holds of a car that offers its token. */
  lemma OfferedAtDoor(cfg: Config, s: State, e: nat)
    requires Underway(cfg, s, e) && s.cars[e].ready
    ensures var c, xs := s.cars[e], s.passengers;
      && ListOk(e, c.riding, |xs|) && c.at == c.floor && Total(Holding, xs, e) == 0
      && Asked(c, xs, e) != [] && Nearest(Asked(c, xs, e), c.at) == c.at
      && (c.riding == [] ==> c.count < CAPACITY)
      && (forall q | 0 <= q < |xs| && CarOf(q) == e :: Tied(q, xs[q], c))
  {
    var c, xs := s.cars[e], s.passengers;
    assert CountsOk(c, TallyOf(xs, e)) && CarOk(cfg, c);
    TallyConsistent(xs, e);
  }

  /** Whenever a car offers its token, some passenger's wait condition is true, be
      the car full or not: the loop at the open door can always be left. */
  lemma DoorCanBeLeft(cfg: Config, s: State, e: nat) returns (p: nat)
    requires Underway(cfg, s, e) && s.cars[e].ready
    ensures p < |s.passengers| && CarOf(p) == e && MayTake(s.passengers[p], s.cars[e])
  {
    OfferedAtDoor(cfg, s, e);
    if s.cars[e].riding != [] {
      p := RiderMayTake(s.cars[e], s.passengers, e);
    } else {
      p := WaiterMayTake(cfg, s.cars[e], s.passengers, e);
    }
  }

  // ---------------------------------------------------------------- some turn is possible

  /** The car whose passenger or elevator thread takes the turn. */
  predicate TurnOf(a: Action, e: nat) {
    match a
    case PassengerTurn(p, _) => CarOf(p) == e
    case ElevatorTurn(d) => d == e
    case MainStops => false
  }

  lemma ElevatorCanGo(cfg: Config, e: nat, c: Car, t: Tally, xs: seq<Passenger>, stop: bool)
    requires Sensible(cfg) && CarOk(cfg, c) && CountsOk(c, t) && Consistent(t) && ListOk(e, c.riding, |xs|)
    requires forall p | 0 <= p < |xs| :: PassengerOk(cfg, p, xs[p])
    requires c.start >= 3 && !c.pc.Halted? && t.holding == 0 && !c.ready
    ensures var r := ElevatorStep(cfg, e, c, xs, stop); r.Go? && r.next != c
  {
    ElevatorStepOk(cfg, e, c, t, xs, stop);
    assert forall i | 0 <= i < |c.riding| :: c.riding[i] in c.riding;
  }

  lemma PassengerCanGo(cfg: Config, p: nat, x: Passenger, c: Car, t: Tally, n: nat, stop: bool, pick: nat)
    requires TurnPre(cfg, p, x, c, t, n)
    requires Is(Holding, x.pc) || MayTake(x, c)
    ensures var r := PassengerStep(cfg, p, x, c, stop, pick); r.Go? && r.next.0 != x
  {
    PassengerStepOk(cfg, p, x, c, t, n, stop, pick);
    if x.pc.AwaitEntry? || Entering(x.pc) {
    } else {
    }
  }

  lemma PassengerCanTurn(cfg: Config, s: State, p: nat)
    requires Sensible(cfg) && Inv(cfg, s) && p < |s.passengers|
    requires Is(Holding, s.passengers[p].pc) || MayTake(s.passengers[p], s.cars[CarOf(p)])
    ensures Apply(cfg, s, PassengerTurn(p, 0)) != s
  {
    var e := CarOf(p);
    TallyConsistent(s.passengers, e);
    TallyCounts(s.passengers, p);
    PassengerCanGo(cfg, p, s.passengers[p], s.cars[e], TallyOf(s.passengers, e), |s.passengers|, s.stop, 0);
    assert Apply(cfg, s, PassengerTurn(p, 0)).passengers[p] != s.passengers[p];
  }

  lemma ElevatorCanTurn(cfg: Config, s: State, e: nat)
    requires Sensible(cfg) && Inv(cfg, s) && e < CARS
    requires s.cars[e].start >= 3 && !s.cars[e].pc.Halted?
    requires Total(Holding, s.passengers, e) == 0 && !s.cars[e].ready
    ensures Apply(cfg, s, ElevatorTurn(e)) != s
  {
    TallyConsistent(s.passengers, e);
    ElevatorCanGo(cfg, e, s.cars[e], TallyOf(s.passengers, e), s.passengers, s.stop);
    assert Apply(cfg, s, ElevatorTurn(e)).cars[e] != s.cars[e];
  }

  /** While passengers of a car are still to be delivered, some thread of that car
      can take a turn that changes the state. */
  lemma NoDeadlock(cfg: Config, s: State, e: nat) returns (a: Action)
    requires Underway(cfg, s, e) && s.cars[e].start >= 3 && CallsLeft(cfg, s, e) > 0
    ensures TurnOf(a, e) && Apply(cfg, s, a) != s
  {
    var xs := s.passengers;
    if Total(Holding, xs, e) > 0 {
      var p := SomeMember(Holding, xs, e, |xs|);
      PassengerCanTurn(cfg, s, p);
      a := PassengerTurn(p, 0);
    } else if s.cars[e].ready {
      var p := DoorCanBeLeft(cfg, s, e);
      PassengerCanTurn(cfg, s, p);
      a := PassengerTurn(p, 0);
    } else {
      var p := SomeMember(Owed, xs, e, |xs|);
      assert !s.stop;
      ElevatorCanTurn(cfg, s, e);
      a := ElevatorTurn(e);
    }
  }

  // ---------------------------------------------------------------- every turn counts

  /** Elevator turns before the call in progress is over, at most. */
  function TurnsInCall(c: Car, passengers: nat): nat {
    match c.pc
    case Top => passengers + 31
    case Gate => passengers + 30
    case ScanRiders => if c.i < |c.riding| then 20 + |c.riding| - c.i else 20
    case ScanWaiters => if c.i < passengers then 20 + passengers - c.i else 20
    case SetTarget => 19 case SteerUp => 18 case SteerDown => 17 case Decide => 16
    case OpenCheck1 => 15 case OpenCheck2 => 14 case OpenAct => 13
    case ClearTarget => 12 case PublishReady => 11 case AwaitPassenger => 10
    case ClearReady => 9 case CloseCheck => 8 case CloseAct => 7
    case MoveCheck1 => 6 case MoveCheck2 => 5 case MoveAct => 4 case Settle => 3
    case Halted => 0
  }

  /** Turns of the car's threads before all is delivered, at most. */
  function Work(calls: nat, passengers: nat, turns: nat, ahead: nat): nat {
    calls * (passengers + 40) + turns + ahead
  }

  function WorkLeft(cfg: Config, c: Car, xs: seq<Passenger>, e: nat): nat {
    Work(Left(cfg.floors, c, xs, e), |xs|, TurnsInCall(c, |xs|), Total(Ahead, xs, e))
  }

  /** Less is left when calls, turns and statements all stay or drop and one of the
      latter two drops, or when a call is over and a new one begins. */
  lemma LessWork(n: nat, calls: nat, turns: nat, ahead: nat, calls': nat, turns': nat, ahead': nat)
    requires || (calls' <= calls && turns' <= turns && ahead' <= ahead && turns' + ahead' < turns + ahead)
             || (calls' < calls && turns' < n + 40 && ahead' == ahead)
    ensures Work(calls', n, turns', ahead') < Work(calls, n, turns, ahead)
  {
    if calls' < calls {
      MulMonotone(calls', calls - 1, n + 40);
      assert (calls - 1) * (n + 40) + (n + 40) == calls * (n + 40);
    }
  }

  lemma PlanStepShortens(cfg: Config, e: nat, c: Car, xs: seq<Passenger>)
    requires Planning(c.pc) && (c.pc.Gate? ==> |c.riding| <= CAPACITY)
    ensures var r := PlanStep(cfg, e, c, xs);
      r.Go? ==> TurnsInCall(r.next, |xs|) < TurnsInCall(c, |xs|)
  {
  }

  lemma DoorStepShortens(e: nat, c: Car, passengers: nat)
    requires !Planning(c.pc) && !Moving(c.pc) && !Outside(c.pc)
    ensures var r := DoorStep(e, c);
      r.Go? ==> TurnsInCall(r.next, passengers) < TurnsInCall(c, passengers)
  {
  }

  lemma ElevatorStepShortens(cfg: Config, e: nat, c: Car, xs: seq<Passenger>, stop: bool)
    requires !c.pc.Settle? && (c.pc.Gate? ==> |c.riding| <= CAPACITY)
    ensures var r := ElevatorStep(cfg, e, c, xs, stop);
      r.Go? ==> TurnsInCall(r.next, |xs|) < TurnsInCall(c, |xs|)
  {
    if Planning(c.pc) {
      PlanStepShortens(cfg, e, c, xs);
    } else if !Moving(c.pc) && !Outside(c.pc) {
      DoorStepShortens(e, c, |xs|);
    }
  }

  /** A statement is done, and the car is where it was in its call. */
  predicate Shortens(x: Passenger, c: Car, r: Outcome<(Passenger, Car)>) {
    r.Go? ==>
      && StatementsAhead(r.next.0.pc) < StatementsAhead(x.pc)
      && r.next.1.pc == c.pc && (c.pc.AwaitPassenger? || r.next.1 == c)
  }

  lemma EntryStepShortens(p: nat, x: Passenger, c: Car)
    requires x.pc.AwaitEntry? || Entering(x.pc)
    requires Is(Holding, x.pc) || c.ready ==> c.pc.AwaitPassenger?
    ensures Shortens(x, c, EntryStep(p, x, c))
  {
  }

  lemma ExitStepShortens(p: nat, x: Passenger, c: Car)
    requires x.pc.AwaitExit? || Leaving(x.pc)
    requires Is(Holding, x.pc) || c.ready ==> c.pc.AwaitPassenger?
    ensures Shortens(x, c, ExitStep(p, x, c))
  {
  }

  lemma PassengerStepShortens(cfg: Config, p: nat, x: Passenger, c: Car, stop: bool, pick: nat)
    requires Settled(p, x)
    requires Is(Holding, x.pc) || c.ready ==> c.pc.AwaitPassenger?
    ensures Shortens(x, c, PassengerStep(cfg, p, x, c, stop, pick))
  {
    if x.pc.AwaitEntry? || Entering(x.pc) {
      EntryStepShortens(p, x, c);
    } else if x.pc.AwaitExit? || Leaving(x.pc) {
      ExitStepShortens(p, x, c);
    }
  }

  lemma ShortenedIsWork(cfg: Config, p: nat, xs: seq<Passenger>, x: Passenger, c: Car, next: Car)
    requires p < |xs| && StatementsAhead(x.pc) < StatementsAhead(xs[p].pc)
    requires next.pc == c.pc && (c.pc.AwaitPassenger? || next == c)
    requires Left(cfg.floors, next, xs[p := x], CarOf(p)) <= Left(cfg.floors, c, xs, CarOf(p))
    ensures WorkLeft(cfg, next, xs[p := x], CarOf(p)) < WorkLeft(cfg, c, xs, CarOf(p))
  {
    var e, ys := CarOf(p), xs[p := x];
    SumAfterUpdate(Ahead, xs, e, |xs|, p, x);
    LessWork(|xs|, Left(cfg.floors, c, xs, e), TurnsInCall(c, |xs|), Total(Ahead, xs, e),
             Left(cfg.floors, next, ys, e), TurnsInCall(next, |ys|), Total(Ahead, ys, e));
  }

  lemma PassengerTurnIsWork(cfg: Config, s: State, p: nat, pick: nat)
    requires Underway(cfg, s, CarOf(p)) && p < |s.passengers|
    ensures var e, t := CarOf(p), Apply(cfg, s, PassengerTurn(p, pick));
      |t.cars| == CARS && (t != s ==>
        WorkLeft(cfg, t.cars[e], t.passengers, e) < WorkLeft(cfg, s.cars[e], s.passengers, e))
  {
    var e, xs := CarOf(p), s.passengers;
    TallyConsistent(xs, e);
    TallyCounts(xs, p);
    PassengerTurnBound(cfg, s, p, pick, e);
    HolderMeetsCar(cfg, s, p);
    PassengerStepOk(cfg, p, xs[p], s.cars[e], TallyOf(xs, e), |xs|, s.stop, pick);
    PassengerStepShortens(cfg, p, xs[p], s.cars[e], s.stop, pick);
    var r := PassengerStep(cfg, p, xs[p], s.cars[e], s.stop, pick);
    if r.Go? {
      ShortenedIsWork(cfg, p, xs, r.next.0, s.cars[e], r.next.1);
    }
  }

  lemma ElevatorStepIsWork(cfg: Config, e: nat, c: Car, xs: seq<Passenger>, stop: bool)
    requires CarOk(cfg, c) && CountsOk(c, TallyOf(xs, e)) && OnCourse(c, e, xs) && ListOk(e, c.riding, |xs|)
    requires forall p | 0 <= p < |xs| :: PassengerOk(cfg, p, xs[p])
    requires Left(cfg.floors, c, xs, e) > 0
    ensures var r := ElevatorStep(cfg, e, c, xs, stop);
      r.Go? ==> WorkLeft(cfg, r.next, xs, e) < WorkLeft(cfg, c, xs, e)
  {
    var r := ElevatorStep(cfg, e, c, xs, stop);
    if r.Go? {
      OwnElevatorStep(cfg, e, c, xs, stop);
      TallyConsistent(xs, e);
      if !c.pc.Settle? {
        ElevatorStepShortens(cfg, e, c, xs, stop);
      }
      LessWork(|xs|, Left(cfg.floors, c, xs, e), TurnsInCall(c, |xs|), Total(Ahead, xs, e),
               Left(cfg.floors, r.next, xs, e), TurnsInCall(r.next, |xs|), Total(Ahead, xs, e));
    }
  }

  /** A turn by a thread of another car, or by the main thread, is no work for this one. */
  lemma OtherTurnIsNoWork(cfg: Config, s: State, a: Action, e: nat)
    requires Underway(cfg, s, e) && !TurnOf(a, e)
    ensures var t := Apply(cfg, s, a);
      |t.cars| == CARS && WorkLeft(cfg, t.cars[e], t.passengers, e) == WorkLeft(cfg, s.cars[e], s.passengers, e)
  {
    if a.PassengerTurn? && a.p < |s.passengers| {
      var p, xs := a.p, s.passengers;
      var r := PassengerStep(cfg, p, xs[p], s.cars[CarOf(p)], s.stop, a.pick);
      PassengerTurnKeepsSettled(cfg, s, p, a.pick, e);
      if r.Go? {
        assert ListOk(e, s.cars[e].riding, |xs|);
        UnnoticedChange(cfg.floors, s.cars[e], xs, p, r.next.0, e);
        SumAfterUpdate(Ahead, xs, e, |xs|, p, r.next.0);
      }
    }
  }

  /** Turns of car `e`'s threads during a run that changed something. */
  function Turns(cfg: Config, s: State, schedule: seq<Action>, e: nat): nat
    decreases |schedule|
  {
    if schedule == [] then 0
    else One(TurnOf(schedule[0], e) && Apply(cfg, s, schedule[0]) != s)
         + Turns(cfg, Apply(cfg, s, schedule[0]), schedule[1..], e)
  }

  lemma TurnIsWork(cfg: Config, s: State, a: Action, e: nat)
    requires Underway(cfg, s, e) && CallsLeft(cfg, s, e) > 0
    ensures var t := Apply(cfg, s, a);
      |t.cars| == CARS
      && WorkLeft(cfg, t.cars[e], t.passengers, e) + One(TurnOf(a, e) && t != s)
         <= WorkLeft(cfg, s.cars[e], s.passengers, e)
  {
    if !TurnOf(a, e) {
      OtherTurnIsNoWork(cfg, s, a, e);
    } else if a.ElevatorTurn? {
      ElevatorStepIsWork(cfg, e, s.cars[e], s.passengers, s.stop);
      TallyConsistent(s.passengers, e);
      ElevatorStepOk(cfg, e, s.cars[e], TallyOf(s.passengers, e), s.passengers, s.stop);
    } else if a.p < |s.passengers| {
      PassengerTurnIsWork(cfg, s, a.p, a.pick);
    }
  }

  lemma {:induction false} RunIsWork(cfg: Config, s: State, schedule: seq<Action>, e: nat)
    requires Underway(cfg, s, e)
    requires Turns(cfg, s, schedule, e) >= WorkLeft(cfg, s.cars[e], s.passengers, e)
    ensures Underway(cfg, Run(cfg, s, schedule), e)
    ensures CallsLeft(cfg, Run(cfg, s, schedule), e) == 0
    decreases |schedule|
  {
    if schedule == [] {
      NoWorkNoCalls(CallsLeft(cfg, s, e), |s.passengers|, TurnsInCall(s.cars[e], |s.passengers|),
                    Total(Ahead, s.passengers, e));
    } else if CallsLeft(cfg, s, e) == 0 {
      RunUsesUpCalls(cfg, s, schedule, e);
    } else {
      Turn(cfg, s, schedule[0], e);
      TurnIsWork(cfg, s, schedule[0], e);
      RunIsWork(cfg, Apply(cfg, s, schedule[0]), schedule[1..], e);
    }
  }

  lemma NoWorkNoCalls(calls: nat, passengers: nat, turns: nat, ahead: nat)
    requires Work(calls, passengers, turns, ahead) == 0
    ensures calls == 0
  {
    if calls > 0 {
      MulMonotone(1, calls, passengers + 40);
    }
  }
}
