/** What becomes of a car whose passengers have all registered: a bounded number of
    turns delivers them, unless the car is caught with its door open for nobody in the
    call during which the last of them registered. There it stays for ever. */
module ElevatorBounds {
  import opened Elevator
  import opened Census
  import opened ElevatorSafety
  import opened ElevatorDelivery
  import opened ElevatorProgress
  import opened ElevatorStarts

  // ---------------------------------------------------------------- a door nobody comes to

  /** Car `e` offers its token; all its passengers are on trips they have registered for,
      or back from the last one, and none may take it. */
  ghost predicate Stuck(s: State, e: nat) {
    && |s.cars| == CARS && e < CARS
    && s.cars[e].pc.AwaitPassenger? && !s.cars[e].passengerReady
    && (forall p | 0 <= p < |s.passengers| && CarOf(p) == e ::
          var x := s.passengers[p];
          OnTrip(x) && !Is(Holding, x.pc) && !MayTake(x, s.cars[e]))
  }

  lemma StuckStep(cfg: Config, p: nat, x: Passenger, c: Car, stop: bool, pick: nat)
    requires OnTrip(x) && !Is(Holding, x.pc) && !MayTake(x, c)
    ensures var r := PassengerStep(cfg, p, x, c, stop, pick);
      r.Go? ==> r.next.1 == c && !x.pc.AwaitEntry? && OnTrip(r.next.0) && !Is(Holding, r.next.0.pc)
                && !MayTake(r.next.0, c)
  {
  }

  lemma StuckTurn(cfg: Config, s: State, a: Action, e: nat)
    requires Stuck(s, e)
    ensures Stuck(Apply(cfg, s, a), e) && Apply(cfg, s, a).cars[e] == s.cars[e]
    ensures |Apply(cfg, s, a).passengers| == |s.passengers|
    ensures forall p | 0 <= p < |s.passengers| && CarOf(p) == e && s.passengers[p].pc.AwaitEntry? ::
              Apply(cfg, s, a).passengers[p] == s.passengers[p]
  {
    if a.PassengerTurn? && a.p < |s.passengers| && CarOf(a.p) == e {
      StuckStep(cfg, a.p, s.passengers[a.p], s.cars[e], s.stop, a.pick);
    }
  }

  /** Such a car stays where it is, and its passengers where they are, in every run. */
  lemma {:induction false} StuckForEver(cfg: Config, s: State, schedule: seq<Action>, e: nat)
    requires Stuck(s, e)
    ensures Stuck(Run(cfg, s, schedule), e)
    ensures |Run(cfg, s, schedule).passengers| == |s.passengers|
    ensures forall p | 0 <= p < |s.passengers| && CarOf(p) == e && s.passengers[p].pc.AwaitEntry? ::
              Run(cfg, s, schedule).passengers[p] == s.passengers[p]
    decreases |schedule|
  {
    if schedule != [] {
      StuckTurn(cfg, s, schedule[0], e);
      StuckForEver(cfg, Apply(cfg, s, schedule[0]), schedule[1..], e);
    }
  }

  /** It does offer its token, and nobody is being served. */
  lemma StuckOffers(cfg: Config, s: State, e: nat)
    requires Inv(cfg, s) && Stuck(s, e)
    ensures s.cars[e].ready && s.cars[e].count == Total(Counted, s.passengers, e)
  {
    NobodyCounts(Holding, s.passengers, e, |s.passengers|);
    assert CountsOk(s.cars[e], TallyOf(s.passengers, e));
  }

  /** On its course a car is never stuck. */
  lemma OnCourseNotStuck(cfg: Config, s: State, e: nat)
    requires Underway(cfg, s, e)
    ensures !Stuck(s, e)
  {
    if Stuck(s, e) {
      NobodyCounts(Holding, s.passengers, e, |s.passengers|);
      assert CountsOk(s.cars[e], TallyOf(s.passengers, e));
      var p := DoorCanBeLeft(cfg, s, e);
    }
  }

  // ---------------------------------------------------------------- stuck, done or going on

  /** All passengers of the car are on trips they have registered for, or done. */
  ghost predicate AllOnTrip(s: State, e: nat) {
    forall p | 0 <= p < |s.passengers| && CarOf(p) == e :: OnTrip(s.passengers[p])
  }

  /** Some thread of the car can take a turn that changes something. */
  ghost predicate CanGoOn(cfg: Config, s: State, e: nat) {
    exists a :: TurnOf(a, e) && Apply(cfg, s, a) != s
  }

  lemma HaltedIsDelivered(cfg: Config, s: State, e: nat)
    requires Inv(cfg, s) && LastTrips(s) && e < CARS && s.cars[e].pc.Halted?
    ensures Delivered(s, e)
  {
    forall p | 0 <= p < |s.passengers| && CarOf(p) == e
      ensures Settled(p, s.passengers[p]) && s.passengers[p].pc.Finished?
    {
      assert LastTrip(p, s.passengers[p]);
    }
  }

  lemma OfferedIsStuckOrTaken(cfg: Config, s: State, e: nat) returns (p: nat)
    requires Inv(cfg, s) && e < CARS && AllOnTrip(s, e)
    requires Total(Holding, s.passengers, e) == 0 && s.cars[e].ready && !Stuck(s, e)
    ensures p < |s.passengers| && CarOf(p) == e && MayTake(s.passengers[p], s.cars[e])
  {
    assert CarOk(cfg, s.cars[e]) && CountsOk(s.cars[e], TallyOf(s.passengers, e));
    forall q | 0 <= q < |s.passengers| && CarOf(q) == e
      ensures !Is(Holding, s.passengers[q].pc)
    {
      NobodyHolds(s.passengers, e, q);
    }
    var q: int :| 0 <= q < |s.passengers| && CarOf(q) == e && MayTake(s.passengers[q], s.cars[e]);
    p := q;
  }

  /** As long as the car is neither stuck nor done one of its threads can go on. */
  lemma GoesOn(cfg: Config, s: State, e: nat) returns (a: Action)
    requires Sensible(cfg) && Inv(cfg, s) && LastTrips(s) && e < CARS && AllOnTrip(s, e) && s.cars[e].start >= 3
    requires !Delivered(s, e) && !Stuck(s, e)
    ensures TurnOf(a, e) && Apply(cfg, s, a) != s
  {
    if Total(Holding, s.passengers, e) > 0 {
      var p := SomeMember(Holding, s.passengers, e, |s.passengers|);
      PassengerCanTurn(cfg, s, p);
      a := PassengerTurn(p, 0);
    } else if s.cars[e].ready {
      var p := OfferedIsStuckOrTaken(cfg, s, e);
      PassengerCanTurn(cfg, s, p);
      a := PassengerTurn(p, 0);
    } else {
      if s.cars[e].pc.Halted? {
        HaltedIsDelivered(cfg, s, e);
      }
      ElevatorCanTurn(cfg, s, e);
      a := ElevatorTurn(e);
    }
  }

  lemma AllHaveStarted(cfg: Config, s: State, e: nat)
    requires cfg.trips > 0 && Reachable(cfg, s) && |s.passengers| == cfg.passengers
    requires e < CARS && AllOnTrip(s, e) && PassengersOf(e, cfg.passengers) >= 3
    ensures |s.cars| == CARS && s.cars[e].start >= 3
  {
    ReachableStarts(cfg, s);
    assert StartCounted(s.cars[e], e, s.passengers);
    RegisteredAtMost(s.passengers, e, |s.passengers|);
  }

  /** Whenever all passengers of a car, three or more, are on trips or done, the car has
      delivered them all for good, or is stuck, or one of its threads can go on. */
  lemma DeliveredStuckOrGoingOn(cfg: Config, s: State, e: nat)
    requires Sensible(cfg) && cfg.trips > 0 && Reachable(cfg, s)
    requires e < CARS && AllOnTrip(s, e) && PassengersOf(e, cfg.passengers) >= 3
    ensures Delivered(s, e) || Stuck(s, e) || CanGoOn(cfg, s, e)
  {
    ReachableInv(cfg, s);
    ReachableLastTrips(cfg, s);
    AllHaveStarted(cfg, s, e);
    if !Delivered(s, e) && !Stuck(s, e) {
      var a := GoesOn(cfg, s, e);
    }
  }

  /** Those who have registered for the last trip are on it, or done, in every run. */
  lemma {:induction false} RegisteredStay(cfg: Config, s: State, schedule: seq<Action>, e: nat)
    requires Complete(cfg, s, e)
    ensures Complete(cfg, Run(cfg, s, schedule), e) && AllOnTrip(Run(cfg, s, schedule), e)
    decreases |schedule|
  {
    if schedule == [] {
      forall p | 0 <= p < |s.passengers| && CarOf(p) == e
        ensures OnTrip(s.passengers[p])
      {
        assert SettledFor(p, s.passengers[p], e);
      }
    } else {
      StaysComplete(cfg, s, schedule[0], e);
      RegisteredStay(cfg, Apply(cfg, s, schedule[0]), schedule[1..], e);
    }
  }

  /** In particular in every run from the registration for the last trip. */
  lemma RegisteredGoOn(cfg: Config, s: State, schedule: seq<Action>, e: nat)
    requires Sensible(cfg) && cfg.trips > 0 && Reachable(cfg, s)
    requires e < CARS && RegisteredFor(s, e) && PassengersOf(e, cfg.passengers) >= 3
    ensures var t := Run(cfg, s, schedule); Delivered(t, e) || Stuck(t, e) || CanGoOn(cfg, t, e)
  {
    RegisteredIsComplete(cfg, s, e);
    RegisteredStay(cfg, s, schedule, e);
    ReachableFurther(cfg, s, schedule);
    DeliveredStuckOrGoingOn(cfg, Run(cfg, s, schedule), e);
  }

  // ---------------------------------------------------------------- from the next call on

  lemma {:induction false} UnderwayAfterCall(cfg: Config, s: State, schedule: seq<Action>, e: nat)
    requires Complete(cfg, s, e)
    requires BetweenCalls(s.cars[e].pc) || Calls(cfg, s, schedule, e) > 0
    ensures Underway(cfg, Run(cfg, s, schedule), e)
    decreases |schedule|
  {
    if BetweenCalls(s.cars[e].pc) {
      OnCourseFromCall(cfg, s, e);
      RunUsesUpCalls(cfg, s, schedule, e);
    } else if CompletesCall(s, schedule[0], e) {
      CallOver(cfg, s, schedule[0], e);
      RunUsesUpCalls(cfg, Apply(cfg, s, schedule[0]), schedule[1..], e);
    } else {
      StaysComplete(cfg, s, schedule[0], e);
      UnderwayAfterCall(cfg, Apply(cfg, s, schedule[0]), schedule[1..], e);
    }
  }

  /** Once the call in progress at the end of registration is over, there is always
      somebody who may take the token when it is offered, so the car is never stuck. */
  lemma OpenDoorIsServed(cfg: Config, s: State, schedule: seq<Action>, e: nat)
    requires Sensible(cfg) && cfg.trips > 0 && Reachable(cfg, s)
    requires e < CARS && RegisteredFor(s, e) && |s.cars| == CARS
    requires BetweenCalls(s.cars[e].pc) || Calls(cfg, s, schedule, e) > 0
    ensures var t := Run(cfg, s, schedule);
      && |t.cars| == CARS && !Stuck(t, e)
      && (t.cars[e].ready ==>
            exists p :: 0 <= p < |t.passengers| && CarOf(p) == e && MayTake(t.passengers[p], t.cars[e]))
  {
    var t := Run(cfg, s, schedule);
    RegisteredIsComplete(cfg, s, e);
    UnderwayAfterCall(cfg, s, schedule, e);
    OnCourseNotStuck(cfg, t, e);
    if t.cars[e].ready {
      var p := DoorCanBeLeft(cfg, t, e);
    }
  }

  // ---------------------------------------------------------------- turns until all is delivered

  /** Turns enough from anywhere in a call: for its rest, for the calls after it that
      `calls` bounds, and for all statements of the passengers. */
  function WorkInCall(calls: nat, c: Car, xs: seq<Passenger>, e: nat): nat {
    Work(calls, |xs|, |xs| + 31 + TurnsInCall(c, |xs|), Total(Ahead, xs, e))
  }

  lemma PassengerStepInCall(cfg: Config, p: nat, xs: seq<Passenger>, c: Car, stop: bool, pick: nat, calls: nat)
    requires p < |xs| && Settled(p, xs[p])
    requires Is(Holding, xs[p].pc) || c.ready ==> c.pc.AwaitPassenger?
    ensures var r := PassengerStep(cfg, p, xs[p], c, stop, pick);
      r.Go? ==> WorkInCall(calls, r.next.1, xs[p := r.next.0], CarOf(p)) < WorkInCall(calls, c, xs, CarOf(p))
  {
    var r := PassengerStep(cfg, p, xs[p], c, stop, pick);
    PassengerStepShortens(cfg, p, xs[p], c, stop, pick);
    if r.Go? {
      SumAfterUpdate(Ahead, xs, CarOf(p), |xs|, p, r.next.0);
      assert TurnsInCall(r.next.1, |xs|) == TurnsInCall(c, |xs|);
    }
  }

  lemma PassengerTurnInCall(cfg: Config, s: State, p: nat, pick: nat, calls: nat)
    requires Complete(cfg, s, CarOf(p)) && p < |s.passengers|
    ensures var e, t := CarOf(p), Apply(cfg, s, PassengerTurn(p, pick));
      |t.cars| == CARS && (t != s ==>
        WorkInCall(calls, t.cars[e], t.passengers, e) < WorkInCall(calls, s.cars[e], s.passengers, e))
  {
    var e := CarOf(p);
    StaysComplete(cfg, s, PassengerTurn(p, pick), e);
    HolderMeetsCar(cfg, s, p);
    assert SettledFor(p, s.passengers[p], e) && CarOk(cfg, s.cars[e]);
    PassengerStepInCall(cfg, p, s.passengers, s.cars[e], s.stop, pick, calls);
  }

  lemma ElevatorTurnInCall(cfg: Config, s: State, e: nat, calls: nat)
    requires Complete(cfg, s, e) && !s.cars[e].pc.Settle?
    ensures var t := Apply(cfg, s, ElevatorTurn(e));
      |t.cars| == CARS && (t != s ==>
        WorkInCall(calls, t.cars[e], t.passengers, e) < WorkInCall(calls, s.cars[e], s.passengers, e))
  {
    var c, xs := s.cars[e], s.passengers;
    TallyConsistent(xs, e);
    ElevatorStepOk(cfg, e, c, TallyOf(xs, e), xs, s.stop);
    ElevatorStepShortens(cfg, e, c, xs, s.stop);
  }

  lemma OtherTurnInCall(cfg: Config, s: State, a: Action, e: nat, calls: nat)
    requires |s.cars| == CARS && e < CARS && !TurnOf(a, e)
    ensures var t := Apply(cfg, s, a);
      |t.cars| == CARS && WorkInCall(calls, t.cars[e], t.passengers, e) == WorkInCall(calls, s.cars[e], s.passengers, e)
  {
    if a.PassengerTurn? && a.p < |s.passengers| {
      var r := PassengerStep(cfg, a.p, s.passengers[a.p], s.cars[CarOf(a.p)], s.stop, a.pick);
      if r.Go? {
        SumAfterUpdate(Ahead, s.passengers, e, |s.passengers|, a.p, r.next.0);
      }
    }
  }

  lemma TurnInCall(cfg: Config, s: State, a: Action, e: nat, calls: nat)
    requires Complete(cfg, s, e) && !CompletesCall(s, a, e)
    ensures var t := Apply(cfg, s, a);
      |t.cars| == CARS
      && WorkInCall(calls, t.cars[e], t.passengers, e) + One(TurnOf(a, e) && t != s)
         <= WorkInCall(calls, s.cars[e], s.passengers, e)
  {
    if !TurnOf(a, e) {
      OtherTurnInCall(cfg, s, a, e, calls);
    } else if a.ElevatorTurn? {
      ElevatorTurnInCall(cfg, s, e, calls);
    } else if a.p < |s.passengers| {
      PassengerTurnInCall(cfg, s, a.p, a.pick, calls);
    }
  }

  lemma FewerCallsLessWork(calls: nat, bound: nat, passengers: nat, turns: nat, more: nat, ahead: nat)
    requires calls <= bound && turns < more
    ensures Work(calls, passengers, turns, ahead) < Work(bound, passengers, more, ahead)
  {
    MulMonotone(calls, bound, passengers + 40);
  }

  /** When the call is over, what is left is what the next calls need. */
  lemma NextCallWork(cfg: Config, s: State, e: nat, calls: nat)
    requires e < |s.cars| && s.ended == None && s.cars[e].pc.Settle?
    requires var t := Apply(cfg, s, ElevatorTurn(e)); Left(cfg.floors, t.cars[e], t.passengers, e) <= calls
    ensures var t := Apply(cfg, s, ElevatorTurn(e));
      WorkLeft(cfg, t.cars[e], t.passengers, e) < WorkInCall(calls, s.cars[e], s.passengers, e)
  {
    var t, n := Apply(cfg, s, ElevatorTurn(e)), |s.passengers|;
    FewerCallsLessWork(Left(cfg.floors, t.cars[e], t.passengers, e), calls, n, n + 31, n + 34,
                       Total(Ahead, s.passengers, e));
  }

  lemma CallsAfterCall(cfg: Config, s: State, e: nat)
    requires Complete(cfg, s, e) && s.cars[e].pc.Settle?
    ensures var t := Apply(cfg, s, ElevatorTurn(e));
      Underway(cfg, t, e) && CallsLeft(cfg, t, e) <= 2 * PassengersOf(e, cfg.passengers) * cfg.floors
  {
    CallOver(cfg, s, ElevatorTurn(e), e);
    BoundBetweenCalls(cfg, Apply(cfg, s, ElevatorTurn(e)), e);
  }

  lemma {:induction false} RunOfCalls(cfg: Config, s: State, schedule: seq<Action>, e: nat, calls: nat)
    requires Complete(cfg, s, e) && calls == 2 * PassengersOf(e, cfg.passengers) * cfg.floors
    requires Turns(cfg, s, schedule, e) >= WorkInCall(calls, s.cars[e], s.passengers, e)
    ensures Delivered(Run(cfg, s, schedule), e)
    decreases |schedule|
  {
    if schedule == [] {
      WorkAtLeast(calls, |s.passengers|, |s.passengers| + 31 + TurnsInCall(s.cars[e], |s.passengers|),
                  Total(Ahead, s.passengers, e));
    } else if CompletesCall(s, schedule[0], e) {
      CallsAfterCall(cfg, s, e);
      NextCallWork(cfg, s, e, calls);
      RunIsWork(cfg, Apply(cfg, s, schedule[0]), schedule[1..], e);
      NothingLeft(cfg, Run(cfg, s, schedule), e);
    } else {
      TurnInCall(cfg, s, schedule[0], e, calls);
      StaysComplete(cfg, s, schedule[0], e);
      RunOfCalls(cfg, Apply(cfg, s, schedule[0]), schedule[1..], e, calls);
    }
  }

  lemma WorkAtLeast(calls: nat, passengers: nat, turns: nat, ahead: nat)
    ensures Work(calls, passengers, turns, ahead) >= turns
  {
    MulMonotone(0, calls, passengers + 40);
  }

  // ---------------------------------------------------------------- the bound as a number

  /** `n` passengers of the car, `all` passengers of the building. */
  function TurnBound(floors: nat, n: nat, all: nat): int {
    2 * n * floors * (all + 40) + 2 * (all + 31) + 18 * n
  }

  lemma {:induction false} AheadAtMost(xs: seq<Passenger>, e: nat, m: nat)
    requires m <= |xs|
    ensures Sum(Ahead, xs, e, m) <= 18 * PassengersOf(e, m)
  {
    if m > 0 {
      AheadAtMost(xs, e, m - 1);
    }
  }

  lemma TurnsInCallAtMost(c: Car, passengers: nat)
    requires c.pc.ScanRiders? ==> |c.riding| <= CAPACITY
    ensures TurnsInCall(c, passengers) <= passengers + 31
  {
  }

  lemma WorkWithinBound(cfg: Config, s: State, e: nat, calls: nat)
    requires Complete(cfg, s, e) && calls == 2 * PassengersOf(e, cfg.passengers) * cfg.floors
    ensures WorkInCall(calls, s.cars[e], s.passengers, e)
         <= TurnBound(cfg.floors, PassengersOf(e, cfg.passengers), cfg.passengers)
  {
    var c, xs := s.cars[e], s.passengers;
    TallyConsistent(xs, e);
    assert CountsOk(c, TallyOf(xs, e));
    AheadAtMost(xs, e, |xs|);
    TurnsInCallAtMost(c, |xs|);
  }

  /** From the moment the `n` passengers of a car are registered, this many turns of the
      car's threads, counting those that change something, deliver them all. Nothing is
      assumed about fairness between the car's threads or about the other cars'. */
  lemma DeliveryInBoundedTurns(cfg: Config, s: State, schedule: seq<Action>, e: nat)
    requires Sensible(cfg) && cfg.trips > 0 && Reachable(cfg, s)
    requires e < CARS && RegisteredFor(s, e)
    requires var n := PassengersOf(e, cfg.passengers);
      Turns(cfg, s, schedule, e)
      >= 2 * n * cfg.floors * (cfg.passengers + 40) + 2 * (cfg.passengers + 31) + 18 * n
    ensures Delivered(Run(cfg, s, schedule), e)
  {
    RegisteredIsComplete(cfg, s, e);
    MulMonotone(0, 2 * PassengersOf(e, cfg.passengers), cfg.floors);
    var calls := 2 * PassengersOf(e, cfg.passengers) * cfg.floors;
    WorkWithinBound(cfg, s, e, calls);
    RunOfCalls(cfg, s, schedule, e, calls);
  }
}
