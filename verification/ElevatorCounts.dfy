/** What the numbers of calls, moves and turns in the other theorems count. */
module ElevatorCounts {
  import opened Elevator
  import opened ElevatorSafety
  import opened ElevatorDelivery
  import opened ElevatorProgress
  import opened ElevatorStop
  import opened ElevatorSweep

  // ---------------------------------------------------------------- moves and calls

  /** What a turn does to the floor and to the end of a call: a move changes the floor by
      one, and the call is completed by the turn that follows the move. */
  predicate MovesBy(c: Car, moves: bool, completes: bool, next: Car) {
    && (if moves then next.refFloor == c.refFloor + 1 || next.refFloor == c.refFloor - 1
        else next.refFloor == c.refFloor)
    && One(next.pc.Settle?) + One(completes) == One(c.pc.Settle?) + One(moves)
  }

  lemma PlanStepStays(cfg: Config, e: nat, c: Car, xs: seq<Passenger>)
    requires Planning(c.pc)
    ensures var r := PlanStep(cfg, e, c, xs); r.Go? ==> MovesBy(c, false, false, r.next)
  {
  }

  lemma DoorStepStays(e: nat, c: Car)
    requires !Planning(c.pc) && !Moving(c.pc) && !Outside(c.pc)
    ensures var r := DoorStep(e, c); r.Go? ==> MovesBy(c, false, false, r.next)
  {
  }

  lemma CarStepMoves(cfg: Config, e: nat, c: Car, xs: seq<Passenger>, stop: bool)
    requires c.direction == 1 || c.direction == -1
    ensures var r := ElevatorStep(cfg, e, c, xs, stop);
      if r.Go? then MovesBy(c, c.pc.MoveAct?, c.pc.Settle?, r.next) else !c.pc.MoveAct? && !c.pc.Settle?
  {
    if Planning(c.pc) {
      PlanStepStays(cfg, e, c, xs);
    } else if !Moving(c.pc) && !Outside(c.pc) {
      DoorStepStays(e, c);
    }
  }

  lemma PassengerStepStays(cfg: Config, p: nat, x: Passenger, c: Car, stop: bool, pick: nat)
    ensures var r := PassengerStep(cfg, p, x, c, stop, pick); r.Go? ==> MovesBy(c, false, false, r.next.1)
  {
  }

  lemma PassengerTurnStays(cfg: Config, s: State, p: nat, pick: nat, e: nat)
    requires |s.cars| == CARS && e < CARS
    ensures var t := Apply(cfg, s, PassengerTurn(p, pick));
      |t.cars| == CARS && MovesBy(s.cars[e], false, false, t.cars[e])
  {
    if p < |s.passengers| && CarOf(p) == e {
      PassengerStepStays(cfg, p, s.passengers[p], s.cars[e], s.stop, pick);
    }
  }

  lemma ElevatorTurnMoves(cfg: Config, s: State, d: nat, e: nat)
    requires Sensible(cfg) && Inv(cfg, s) && e < CARS
    ensures var t := Apply(cfg, s, ElevatorTurn(d));
      && |t.cars| == CARS
      && MovesBy(s.cars[e], MovesCar(s, ElevatorTurn(d), e), CompletesCall(s, ElevatorTurn(d), e), t.cars[e])
  {
    if d == e {
      assert CarOk(cfg, s.cars[e]);
      CarStepMoves(cfg, e, s.cars[e], s.passengers, s.stop);
    }
  }

  lemma TurnMoves(cfg: Config, s: State, a: Action, e: nat)
    requires Sensible(cfg) && Inv(cfg, s) && e < CARS
    ensures var t := Apply(cfg, s, a);
      |t.cars| == CARS && MovesBy(s.cars[e], MovesCar(s, a, e), CompletesCall(s, a, e), t.cars[e])
  {
    match a
    case PassengerTurn(p, pick) => PassengerTurnStays(cfg, s, p, pick, e);
    case ElevatorTurn(d) => ElevatorTurnMoves(cfg, s, d, e);
    case MainStops =>
  }

  /** As many moves as that can lead from one floor to the other. */
  predicate Reaches(from: int, to: int, moves: nat) {
    from - moves <= to <= from + moves && (moves - (to - from)) % 2 == 0
  }

  lemma OneMoreMove(from: int, middle: int, to: int, moved: bool, rest: nat, moves: nat)
    requires Reaches(middle, to, rest) && moves == One(moved) + rest
    requires if moved then middle == from + 1 || middle == from - 1 else middle == from
    ensures Reaches(from, to, moves)
  {
  }

  /** In every run from a reachable state the referee's floor of a car changes by its
      moves, one floor each, up or down; and each call that it completes has one move, the
      last one perhaps still to be settled. */
  lemma {:induction false} MovesOfCalls(cfg: Config, s: State, schedule: seq<Action>, e: nat)
    requires Sensible(cfg) && Inv(cfg, s) && e < CARS
    ensures var t, moves := Run(cfg, s, schedule), Moves(cfg, s, schedule, e);
      && |t.cars| == CARS && Reaches(s.cars[e].refFloor, t.cars[e].refFloor, moves)
      && One(t.cars[e].pc.Settle?) + Calls(cfg, s, schedule, e) == One(s.cars[e].pc.Settle?) + moves
    decreases |schedule|
  {
    if schedule != [] {
      var t := Apply(cfg, s, schedule[0]);
      TurnMoves(cfg, s, schedule[0], e);
      TurnKeepsInv(cfg, s, schedule[0]);
      MovesOfCalls(cfg, t, schedule[1..], e);
      OneMoreMove(s.cars[e].refFloor, t.cars[e].refFloor, Run(cfg, t, schedule[1..]).cars[e].refFloor,
                  MovesCar(s, schedule[0], e), Moves(cfg, t, schedule[1..], e), Moves(cfg, s, schedule, e));
    }
  }

  /** So between two moments at which the car is between calls it has made one move for
      each call. */
  lemma OneMovePerCall(cfg: Config, s: State, schedule: seq<Action>, e: nat)
    requires Sensible(cfg) && Reachable(cfg, s) && e < CARS && |s.cars| == CARS && BetweenCalls(s.cars[e].pc)
    ensures var t, calls := Run(cfg, s, schedule), Calls(cfg, s, schedule, e);
      && |t.cars| == CARS
      && (BetweenCalls(t.cars[e].pc) ==>
            Moves(cfg, s, schedule, e) == calls && Reaches(s.cars[e].refFloor, t.cars[e].refFloor, calls))
  {
    ReachableInv(cfg, s);
    MovesOfCalls(cfg, s, schedule, e);
  }

  // ---------------------------------------------------------------- turns that change something

  /** The car and its passengers are as they were. */
  ghost predicate SameFor(s: State, t: State, e: nat) {
    && |t.cars| == |s.cars| && |t.passengers| == |s.passengers|
    && (e < |s.cars| ==> t.cars[e] == s.cars[e])
    && forall p | 0 <= p < |s.passengers| && CarOf(p) == e :: t.passengers[p] == s.passengers[p]
  }

  lemma OtherTurnIsQuiet(cfg: Config, s: State, a: Action, e: nat)
    requires !TurnOf(a, e)
    ensures SameFor(s, Apply(cfg, s, a), e)
  {
  }

  /** A run in which no turn of a car's threads counts leaves the car and its passengers
      as they were. */
  lemma {:induction false} NoTurnNoChange(cfg: Config, s: State, schedule: seq<Action>, e: nat)
    requires Turns(cfg, s, schedule, e) == 0
    ensures SameFor(s, Run(cfg, s, schedule), e)
    decreases |schedule|
  {
    if schedule != [] {
      var t := Apply(cfg, s, schedule[0]);
      if !TurnOf(schedule[0], e) {
        OtherTurnIsQuiet(cfg, s, schedule[0], e);
      }
      NoTurnNoChange(cfg, t, schedule[1..], e);
    }
  }

  lemma {:induction false} NoPassengerTurnNoChange(cfg: Config, s: State, schedule: seq<Action>, p: nat)
    requires p < |s.passengers| && TurnsOfPassenger(schedule, p) == 0
    ensures var t := Run(cfg, s, schedule); |t.passengers| == |s.passengers| && t.passengers[p] == s.passengers[p]
    decreases |schedule|
  {
    if schedule != [] {
      OtherTurns(cfg, s, schedule[0], p);
      NoPassengerTurnNoChange(cfg, Apply(cfg, s, schedule[0]), schedule[1..], p);
    }
  }

  lemma OneQuietTurn(cfg: Config, s: State, a: Action, e: nat)
    requires Stopped(cfg, s, e) && !(a == ElevatorTurn(e) && Apply(cfg, s, a) != s)
    ensures |Apply(cfg, s, a).cars| == CARS && Apply(cfg, s, a).cars[e] == s.cars[e]
  {
    match a
    case PassengerTurn(p, pick) => FinishedTurn(cfg, s, p, pick);
    case ElevatorTurn(d) =>
      if d != e {
        OtherCarTurn(cfg, s, d, e);
      }
    case MainStops =>
  }

  lemma {:induction false} NoCarTurnNoChange(cfg: Config, s: State, schedule: seq<Action>, e: nat)
    requires Stopped(cfg, s, e) && CarTurns(cfg, s, schedule, e) == 0
    ensures var t := Run(cfg, s, schedule); |t.cars| == CARS && t.cars[e] == s.cars[e]
    decreases |schedule|
  {
    if schedule != [] {
      OneQuietTurn(cfg, s, schedule[0], e);
      StopTurn(cfg, s, schedule[0], e);
      NoCarTurnNoChange(cfg, Apply(cfg, s, schedule[0]), schedule[1..], e);
    }
  }
}
