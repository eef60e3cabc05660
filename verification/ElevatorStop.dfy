/** How the program ends: delivered passengers finish, then the main thread stops the
    program, and then every car that has started and is not stuck halts. */
module ElevatorStop {
  import opened Elevator
  import opened Census
  import opened ElevatorSafety
  import opened ElevatorDelivery
  import opened ElevatorProgress
  import opened ElevatorBounds
  import opened ElevatorAim

  // ---------------------------------------------------------------- the passengers finish

  /** Turns of passenger `p` during a run. */
  function TurnsOfPassenger(schedule: seq<Action>, p: nat): nat {
    if schedule == [] then 0
    else One(schedule[0].PassengerTurn? && schedule[0].p == p) + TurnsOfPassenger(schedule[1..], p)
  }

  /** Turns a passenger who has been delivered for good still needs. */
  function TurnsToFinish(pc: PassengerPc): nat {
    match pc
    case CheckArrival => 3 case MoveOrigin => 2 case NextTrip => 1 case _ => 0
  }

  /** Back from the last trip. */
  predicate Back(x: Passenger) {
    x.trips == 0 && (x.pc.NextTrip? || HasExited(x.pc))
  }

  lemma BackStep(cfg: Config, p: nat, x: Passenger, c: Car, stop: bool, pick: nat)
    requires Back(x) && (x.pc.CheckArrival? ==> x.at == x.destination)
    ensures var r := PassengerStep(cfg, p, x, c, stop, pick);
      !r.Fail? && (r.Go? ==> Back(r.next.0) && TurnsToFinish(r.next.0.pc) + 1 == TurnsToFinish(x.pc))
    ensures PassengerStep(cfg, p, x, c, stop, pick).Wait? ==> x.pc.Finished?
  {
  }

  lemma BackTurn(cfg: Config, s: State, a: Action, p: nat)
    requires Inv(cfg, s) && p < |s.passengers| && Back(s.passengers[p])
    ensures var t := Apply(cfg, s, a);
      && p < |t.passengers| && Back(t.passengers[p])
      && (TurnsToFinish(t.passengers[p].pc) == 0
          || TurnsToFinish(t.passengers[p].pc) + One(a.PassengerTurn? && a.p == p)
             <= TurnsToFinish(s.passengers[p].pc))
  {
    if a.PassengerTurn? && a.p == p {
      OwnBackTurn(cfg, s, p, a.pick);
    } else {
      OtherTurns(cfg, s, a, p);
    }
  }

  lemma OtherTurns(cfg: Config, s: State, a: Action, p: nat)
    requires p < |s.passengers| && !(a.PassengerTurn? && a.p == p)
    ensures |Apply(cfg, s, a).passengers| == |s.passengers| && Apply(cfg, s, a).passengers[p] == s.passengers[p]
  {
  }

  lemma OwnBackTurn(cfg: Config, s: State, p: nat, pick: nat)
    requires Inv(cfg, s) && p < |s.passengers| && Back(s.passengers[p])
    ensures var t := Apply(cfg, s, PassengerTurn(p, pick));
      && p < |t.passengers| && Back(t.passengers[p])
      && (TurnsToFinish(t.passengers[p].pc) == 0
          || TurnsToFinish(t.passengers[p].pc) + 1 <= TurnsToFinish(s.passengers[p].pc))
  {
    assert PassengerOk(cfg, p, s.passengers[p]);
    BackStep(cfg, p, s.passengers[p], s.cars[CarOf(p)], s.stop, pick);
  }

  /** After three turns of its own, whatever the others do, it has finished. */
  lemma {:induction false} BackFinishes(cfg: Config, s: State, schedule: seq<Action>, p: nat)
    requires Sensible(cfg) && Inv(cfg, s) && p < |s.passengers| && Back(s.passengers[p])
    requires TurnsOfPassenger(schedule, p) >= TurnsToFinish(s.passengers[p].pc)
    ensures var t := Run(cfg, s, schedule); p < |t.passengers| && t.passengers[p].pc.Finished?
    decreases |schedule|
  {
    if schedule != [] {
      BackTurn(cfg, s, schedule[0], p);
      TurnKeepsInv(cfg, s, schedule[0]);
      BackFinishes(cfg, Apply(cfg, s, schedule[0]), schedule[1..], p);
    }
  }

  /** Once everybody is delivered for good, three turns of each passenger in any
      interleaving lead to where the main thread stops the program. */
  lemma StopIsReached(cfg: Config, s: State, schedule: seq<Action>)
    requires Sensible(cfg) && Reachable(cfg, s)
    requires forall p | 0 <= p < |s.passengers| :: Back(s.passengers[p])
    requires forall p | 0 <= p < |s.passengers| :: TurnsOfPassenger(schedule, p) >= 3
    ensures var t := Run(cfg, s, schedule); EveryoneFinished(t) && Apply(cfg, t, MainStops).stop
  {
    var t := Run(cfg, s, schedule);
    ReachableInv(cfg, s);
    RunKeepsInv(cfg, s, schedule);
    forall p | 0 <= p < |t.passengers|
      ensures t.passengers[p].pc.Finished?
    {
      BackFinishes(cfg, s, schedule, p);
    }
  }

  // ---------------------------------------------------------------- the cars halt

  /** Elevator turns of car `e` during a run that changed something. */
  function CarTurns(cfg: Config, s: State, schedule: seq<Action>, e: nat): nat
    decreases |schedule|
  {
    if schedule == [] then 0
    else One(schedule[0] == ElevatorTurn(e) && Apply(cfg, s, schedule[0]) != s)
         + CarTurns(cfg, Apply(cfg, s, schedule[0]), schedule[1..], e)
  }

  /** Turns of the elevator thread before it halts, once the program has stopped. */
  function TurnsToHalt(c: Car, passengers: nat): nat {
    if c.pc.Halted? then 0 else if c.pc.Top? then 1 else TurnsInCall(c, passengers)
  }

  ghost predicate Stopped(cfg: Config, s: State, e: nat) {
    Sensible(cfg) && Inv(cfg, s) && e < CARS && s.stop
  }

  lemma NobodyHoldsOnceStopped(cfg: Config, s: State, e: nat)
    requires Stopped(cfg, s, e)
    ensures Total(Holding, s.passengers, e) == 0
  {
    NobodyCounts(Holding, s.passengers, e, |s.passengers|);
  }

  lemma StopStep(cfg: Config, e: nat, c: Car, xs: seq<Passenger>)
    requires CarOk(cfg, c) && CountsOk(c, TallyOf(xs, e)) && Consistent(TallyOf(xs, e))
    ensures var r := ElevatorStep(cfg, e, c, xs, true);
      r.Go? ==> TurnsToHalt(r.next, |xs|) < TurnsToHalt(c, |xs|)
  {
    var r := ElevatorStep(cfg, e, c, xs, true);
    if r.Go? && !c.pc.Top? && !c.pc.Settle? {
      ElevatorStepShortens(cfg, e, c, xs, true);
    }
  }

  lemma StopElevatorTurn(cfg: Config, s: State, e: nat)
    requires Stopped(cfg, s, e)
    ensures var t := Apply(cfg, s, ElevatorTurn(e));
      && |t.cars| == CARS && t.passengers == s.passengers && t.stop
      && TurnsToHalt(t.cars[e], |t.passengers|) + One(t != s) <= TurnsToHalt(s.cars[e], |s.passengers|)
  {
    TallyConsistent(s.passengers, e);
    ElevatorStepOk(cfg, e, s.cars[e], TallyOf(s.passengers, e), s.passengers, true);
    StopStep(cfg, e, s.cars[e], s.passengers);
    var r := ElevatorStep(cfg, e, s.cars[e], s.passengers, true);
    assert Apply(cfg, s, ElevatorTurn(e)) == if r.Go? then s.(cars := s.cars[e := r.next]) else s;
  }

  lemma StopTurn(cfg: Config, s: State, a: Action, e: nat)
    requires Stopped(cfg, s, e)
    ensures var t := Apply(cfg, s, a);
      && Stopped(cfg, t, e)
      && TurnsToHalt(t.cars[e], |t.passengers|) + One(a == ElevatorTurn(e) && t != s)
         <= TurnsToHalt(s.cars[e], |s.passengers|)
  {
    TurnKeepsInv(cfg, s, a);
    match a
    case PassengerTurn(p, pick) => FinishedTurn(cfg, s, p, pick);
    case ElevatorTurn(d) =>
      if d == e {
        StopElevatorTurn(cfg, s, e);
      } else {
        OtherCarTurn(cfg, s, d, e);
      }
    case MainStops =>
  }

  lemma OtherCarTurn(cfg: Config, s: State, d: nat, e: nat)
    requires e < |s.cars| && d != e
    ensures var t := Apply(cfg, s, ElevatorTurn(d));
      |t.cars| == |s.cars| && t.cars[e] == s.cars[e] && t.passengers == s.passengers && t.stop == s.stop
  {
  }

  lemma FinishedTurn(cfg: Config, s: State, p: nat, pick: nat)
    requires EveryoneFinished(s)
    ensures Apply(cfg, s, PassengerTurn(p, pick)) == s
  {
  }

  lemma {:induction false} TurnsLeftToHalt(cfg: Config, s: State, schedule: seq<Action>, e: nat)
    requires Stopped(cfg, s, e)
    ensures var t := Run(cfg, s, schedule);
      && Stopped(cfg, t, e)
      && TurnsToHalt(t.cars[e], |t.passengers|) + CarTurns(cfg, s, schedule, e)
         <= TurnsToHalt(s.cars[e], |s.passengers|)
    decreases |schedule|
  {
    if schedule != [] {
      StopTurn(cfg, s, schedule[0], e);
      TurnsLeftToHalt(cfg, Apply(cfg, s, schedule[0]), schedule[1..], e);
    }
  }

  lemma HaltsWithin(cfg: Config, s: State, e: nat)
    requires Stopped(cfg, s, e)
    ensures TurnsToHalt(s.cars[e], |s.passengers|) <= cfg.passengers + 31
    ensures TurnsToHalt(s.cars[e], |s.passengers|) == 0 ==> s.cars[e].pc.Halted?
  {
    TallyConsistent(s.passengers, e);
    NobodyHoldsOnceStopped(cfg, s, e);
    assert CountsOk(s.cars[e], TallyOf(s.passengers, e));
    TurnsInCallAtMost(s.cars[e], |s.passengers|);
  }

  /** Once the program has stopped, PASSENGERS + 31 turns of an elevator thread that
      change something halt it. */
  lemma HaltsInBoundedTurns(cfg: Config, s: State, schedule: seq<Action>, e: nat)
    requires Sensible(cfg) && Reachable(cfg, s) && s.stop && e < CARS
    requires CarTurns(cfg, s, schedule, e) >= cfg.passengers + 31
    ensures |Run(cfg, s, schedule).cars| == CARS && Run(cfg, s, schedule).cars[e].pc.Halted?
  {
    ReachableInv(cfg, s);
    TurnsLeftToHalt(cfg, s, schedule, e);
    HaltsWithin(cfg, s, e);
    HaltsWithin(cfg, Run(cfg, s, schedule), e);
  }

  /** And until then it can take such turns, if it has passed its gate and is not stuck. */
  lemma GoesOnToHalt(cfg: Config, s: State, e: nat)
    requires Sensible(cfg) && cfg.trips > 0 && Reachable(cfg, s) && s.stop && e < CARS
    requires |s.cars| == CARS && s.cars[e].start >= 3 && !s.cars[e].pc.Halted? && !Stuck(s, e)
    ensures Apply(cfg, s, ElevatorTurn(e)) != s
  {
    ReachableInv(cfg, s);
    ReachableLastTrips(cfg, s);
    NobodyHoldsOnceStopped(cfg, s, e);
    forall p | 0 <= p < |s.passengers|
      ensures s.passengers[p].pc.Finished? && OnTrip(s.passengers[p])
    {
      assert LastTrip(p, s.passengers[p]);
    }
    if s.cars[e].ready {
      assert CarOk(cfg, s.cars[e]) && CountsOk(s.cars[e], TallyOf(s.passengers, e));
      assert Stuck(s, e);
    }
    ElevatorCanTurn(cfg, s, e);
  }

  /** Nor can it be stuck then, unless it is car 0. */
  lemma NotStuckOnceStopped(cfg: Config, s: State, e: nat)
    requires Sensible(cfg) && Reachable(cfg, s) && s.stop && 0 < e < CARS
    ensures !Stuck(s, e)
  {
    ReachableInv(cfg, s);
    OpensForSomebody(cfg, s, e);
    if Stuck(s, e) {
      StuckOffers(cfg, s, e);
    }
  }
}
