/** What a car other than car 0 opens its door for: from the moment it has chosen its own
    floor until somebody takes the token, one of its passengers is there for it, to get
    out, or waiting, or about to wait. This holds on every trip and at any time. */
module ElevatorAim {
  import opened Elevator
  import opened Census
  import opened ElevatorSafety
  import opened ElevatorDelivery
  import opened ElevatorPhantom

  // ---------------------------------------------------------------- the records

  /** Past writing the floor waited on, and not yet inside on the scheduler's record. */
  predicate FromIsWritten(pc: PassengerPc) {
    || pc.SetTo? || pc.SetElevator? || pc.SetStatus? || pc.CountStart?
    || pc.AwaitEntry? || Entering(pc)
  }

  /** Past writing the destination, and not yet there. */
  predicate ToIsWritten(pc: PassengerPc) {
    || pc.SetElevator? || pc.SetStatus? || pc.CountStart?
    || pc.AwaitEntry? || Entering(pc) || pc.AwaitExit?
  }

  /** Past writing the car, on the same trip. */
  predicate CarIsWritten(pc: PassengerPc) {
    pc.SetStatus? || pc.CountStart? || pc.AwaitEntry? || Entering(pc) || pc.AwaitExit? || Leaving(pc)
  }

  /** Where the status may say that the passenger waits. */
  predicate MayAsk(pc: PassengerPc) {
    pc.SetStatus? || pc.CountStart? || pc.AwaitEntry? || BeforeEntry(pc) || pc.MarkRiding?
  }

  /** As far as its registration has got, a record says what it should. A passenger of
      another car than car 0 is taken to wait only once the record has been written, on
      later trips as on the first. */
  predicate RecordOk(p: nat, x: Passenger) {
    && (FromIsWritten(x.pc) ==> x.from == x.origin)
    && (ToIsWritten(x.pc) ==> x.to == x.destination)
    && (CarIsWritten(x.pc) ==> x.elevator == CarOf(p))
    && (CarOf(p) > 0 && AsksFor(x, CarOf(p)) ==> MayAsk(x.pc))
  }

  ghost predicate RecordsOk(s: State) {
    forall p | 0 <= p < |s.passengers| :: RecordOk(p, s.passengers[p])
  }

  lemma RegisterRecord(cfg: Config, p: nat, x: Passenger, c: Car, stop: bool, pick: nat)
    requires RecordOk(p, x) && Registering(x.pc)
    ensures var r := RegisterStep(cfg, p, x, c, stop, pick);
      r.Go? ==> RecordOk(p, r.next.0)
  {
  }

  lemma EntryRecord(p: nat, x: Passenger, c: Car)
    requires RecordOk(p, x) && (x.pc.AwaitEntry? || Entering(x.pc))
    ensures var r := EntryStep(p, x, c);
      r.Go? ==> RecordOk(p, r.next.0)
  {
  }

  lemma StepKeepsRecord(cfg: Config, p: nat, x: Passenger, c: Car, stop: bool, pick: nat)
    requires RecordOk(p, x)
    ensures var r := PassengerStep(cfg, p, x, c, stop, pick);
      r.Go? ==> RecordOk(p, r.next.0)
  {
    if Registering(x.pc) {
      RegisterRecord(cfg, p, x, c, stop, pick);
    } else if x.pc.AwaitEntry? || Entering(x.pc) {
      EntryRecord(p, x, c);
    } else if x.pc.AwaitExit? || Leaving(x.pc) {
    } else {
    }
  }

  lemma RecordsTurn(cfg: Config, s: State, a: Action)
    requires RecordsOk(s)
    ensures RecordsOk(Apply(cfg, s, a))
  {
    if a.PassengerTurn? && a.p < |s.passengers| && CarOf(a.p) < |s.cars| {
      StepKeepsRecord(cfg, a.p, s.passengers[a.p], s.cars[CarOf(a.p)], s.stop, a.pick);
    }
  }

  lemma RecordsAtFirst(cfg: Config, s: State)
    requires Initial(cfg, s)
    ensures RecordsOk(s) && NamesZeroOrOwn(s)
  {
    forall p | 0 <= p < |s.passengers|
      ensures RecordOk(p, s.passengers[p]) && s.passengers[p].elevator == 0
    {
      assert InitialPassenger(cfg, s.passengers[p]);
    }
  }

  // ---------------------------------------------------------------- who is there

  /** The passenger rides and wants to get out on this floor, or waits there, or has
      written that he does and is about to. */
  predicate There(x: Passenger, floor: int) {
    || (x.pc.AwaitExit? && x.destination == floor)
    || ((x.pc.SetFrom? || x.pc.SetTo? || x.pc.SetElevator? || x.pc.SetStatus? || x.pc.CountStart? || x.pc.AwaitEntry?)
        && x.origin == floor)
  }

  ghost predicate SomebodyThere(xs: seq<Passenger>, e: nat, floor: int) {
    exists p | 0 <= p < |xs| :: CarOf(p) == e && There(xs[p], floor)
  }

  /** As things stand the car will open its door on its own floor, or has. */
  predicate Aimed(c: Car) {
    if c.pc.ScanRiders? || c.pc.ScanWaiters? || c.pc.SetTarget? then c.closest == c.at
    else if c.pc.SteerUp? || c.pc.SteerDown? || c.pc.Decide? then c.waitAt == c.at
    else Opening(c.pc) || c.ready
  }

  ghost predicate Met(c: Car, e: nat, xs: seq<Passenger>) {
    Aimed(c) ==> SomebodyThere(xs, e, c.at)
  }

  /** A rider is there on the floor its record says. */
  lemma RiderIsThere(c: Car, e: nat, xs: seq<Passenger>, i: nat)
    requires ListOk(e, c.riding, |xs|) && i < |c.riding| && Total(Holding, xs, e) == 0
    requires forall q | 0 <= q < |xs| && CarOf(q) == e :: RecordOk(q, xs[q]) && Tied(q, xs[q], c)
    ensures c.riding[i] < |xs| && SomebodyThere(xs, e, xs[c.riding[i]].to)
  {
    var p := c.riding[i];
    assert p in c.riding;
    NobodyHolds(xs, e, p);
    assert There(xs[p], xs[p].to);
  }

  /** And so is whoever is taken to wait. */
  lemma WaiterIsThere(e: nat, xs: seq<Passenger>, p: nat)
    requires 0 < e && p < |xs| && AsksFor(xs[p], e) && Total(Holding, xs, e) == 0
    requires xs[p].elevator == 0 || xs[p].elevator == CarOf(p)
    requires CarOf(p) == e ==> RecordOk(p, xs[p])
    ensures SomebodyThere(xs, e, xs[p].from)
  {
    NobodyHolds(xs, e, p);
    assert There(xs[p], xs[p].from);
  }

  /** What the lemmas about planning may assume. */
  ghost predicate Known(e: nat, c: Car, xs: seq<Passenger>) {
    && 0 < e && ListOk(e, c.riding, |xs|)
    && (forall q | 0 <= q < |xs| :: xs[q].elevator == 0 || xs[q].elevator == CarOf(q))
    && (forall q | 0 <= q < |xs| && CarOf(q) == e :: RecordOk(q, xs[q]) && Tied(q, xs[q], c))
  }

  lemma ScanIsMet(cfg: Config, e: nat, c: Car, xs: seq<Passenger>)
    requires c.pc.ScanWaiters? && Known(e, c, xs) && Met(c, e, xs)
    requires c.at >= 0 && !c.ready && Total(Holding, xs, e) == 0
    ensures var r := PlanStep(cfg, e, c, xs);
      r.Go? ==> Met(r.next, e, xs)
  {
    if c.i < |xs| && AsksFor(xs[c.i], e) {
      WaiterIsThere(e, xs, c.i);
    }
  }

  lemma PlanIsMet(cfg: Config, e: nat, c: Car, xs: seq<Passenger>)
    requires Planning(c.pc) && Known(e, c, xs) && Met(c, e, xs)
    requires c.at >= 0 && !c.ready && Total(Holding, xs, e) == 0
    ensures var r := PlanStep(cfg, e, c, xs);
      r.Go? ==> Met(r.next, e, xs)
  {
    match c.pc
    case Gate => if c.riding != [] { RiderIsThere(c, e, xs, 0); }
    case ScanRiders => if c.i + 1 < |c.riding| { RiderIsThere(c, e, xs, c.i + 1); }
    case ScanWaiters => ScanIsMet(cfg, e, c, xs);
    case _ =>
  }

  lemma ElevatorStepMet(cfg: Config, e: nat, c: Car, xs: seq<Passenger>, stop: bool)
    requires Known(e, c, xs) && Met(c, e, xs) && CarOk(cfg, c) && CountsOk(c, TallyOf(xs, e))
    ensures var r := ElevatorStep(cfg, e, c, xs, stop);
      r.Go? ==> Met(r.next, e, xs)
  {
    if Planning(c.pc) {
      PlanIsMet(cfg, e, c, xs);
    } else if Moving(c.pc) {
    } else {
    }
  }

  // ---------------------------------------------------------------- passenger turns

  /** The passenger is still there, or the car is not aimed at the floor any more. */
  lemma OwnStepThere(cfg: Config, p: nat, x: Passenger, c: Car, stop: bool, pick: nat)
    requires c.ready ==> c.pc.AwaitPassenger?
    requires Is(Holding, x.pc) ==> c.pc.AwaitPassenger? && !c.ready
    ensures var r := PassengerStep(cfg, p, x, c, stop, pick);
      r.Go? && Aimed(r.next.1) ==>
        r.next.1.at == c.at && (There(r.next.0, c.at) || (Aimed(c) && !There(x, c.at)))
  {
    if Registering(x.pc) {
    } else if x.pc.AwaitEntry? || Entering(x.pc) {
    } else if x.pc.AwaitExit? || Leaving(x.pc) {
    } else {
    }
  }

  lemma SomebodyElse(xs: seq<Passenger>, e: nat, floor: int, p: nat, x: Passenger)
    requires p < |xs| && SomebodyThere(xs, e, floor)
    requires CarOf(p) == e ==> !There(xs[p], floor) || There(x, floor)
    ensures SomebodyThere(xs[p := x], e, floor)
  {
    var q: nat :| q < |xs| && CarOf(q) == e && There(xs[q], floor);
    assert There(xs[p := x][q], floor);
  }

  lemma OwnStepMet(cfg: Config, p: nat, xs: seq<Passenger>, c: Car, stop: bool, pick: nat)
    requires p < |xs| && Met(c, CarOf(p), xs)
    requires c.ready ==> c.pc.AwaitPassenger?
    requires Is(Holding, xs[p].pc) ==> c.pc.AwaitPassenger? && !c.ready
    ensures var r := PassengerStep(cfg, p, xs[p], c, stop, pick);
      r.Go? ==> Met(r.next.1, CarOf(p), xs[p := r.next.0])
  {
    var r := PassengerStep(cfg, p, xs[p], c, stop, pick);
    OwnStepThere(cfg, p, xs[p], c, stop, pick);
    if r.Go? && Aimed(r.next.1) {
      if There(r.next.0, c.at) {
        assert There(xs[p := r.next.0][p], c.at);
      } else {
        SomebodyElse(xs, CarOf(p), c.at, p, r.next.0);
      }
    }
  }

  // ---------------------------------------------------------------- every run

  ghost predicate AllMet(s: State) {
    |s.cars| == CARS && forall e | 0 < e < CARS :: Met(s.cars[e], e, s.passengers)
  }

  lemma PassengerTurnMet(cfg: Config, s: State, p: nat, pick: nat)
    requires Inv(cfg, s) && AllMet(s)
    ensures AllMet(Apply(cfg, s, PassengerTurn(p, pick)))
  {
    if p < |s.passengers| {
      var d, xs := CarOf(p), s.passengers;
      HolderMeetsCar(cfg, s, p);
      assert CarOk(cfg, s.cars[d]);
      var r := PassengerStep(cfg, p, xs[p], s.cars[d], s.stop, pick);
      if r.Go? {
        if d > 0 {
          OwnStepMet(cfg, p, xs, s.cars[d], s.stop, pick);
        }
        forall e | 0 < e < CARS && e != d
          ensures Met(s.cars[e], e, xs[p := r.next.0])
        {
          if Aimed(s.cars[e]) {
            SomebodyElse(xs, e, s.cars[e].at, p, r.next.0);
          }
        }
      }
    }
  }

  lemma ElevatorTurnMet(cfg: Config, s: State, e: nat)
    requires Inv(cfg, s) && AllMet(s) && RecordsOk(s) && NamesZeroOrOwn(s)
    ensures AllMet(Apply(cfg, s, ElevatorTurn(e)))
  {
    if 0 < e < CARS {
      assert Known(e, s.cars[e], s.passengers);
      ElevatorStepMet(cfg, e, s.cars[e], s.passengers, s.stop);
    }
  }

  lemma MetTurn(cfg: Config, s: State, a: Action)
    requires Inv(cfg, s) && AllMet(s) && RecordsOk(s) && NamesZeroOrOwn(s)
    ensures AllMet(Apply(cfg, s, a))
  {
    match a
    case PassengerTurn(p, pick) => PassengerTurnMet(cfg, s, p, pick);
    case ElevatorTurn(e) => ElevatorTurnMet(cfg, s, e);
    case MainStops =>
  }

  lemma {:induction false} MetRun(cfg: Config, s: State, schedule: seq<Action>)
    requires Sensible(cfg) && Inv(cfg, s) && AllMet(s) && RecordsOk(s) && NamesZeroOrOwn(s)
    ensures AllMet(Run(cfg, s, schedule)) && RecordsOk(Run(cfg, s, schedule))
    decreases |schedule|
  {
    if schedule != [] {
      TurnKeepsInv(cfg, s, schedule[0]);
      MetTurn(cfg, s, schedule[0]);
      RecordsTurn(cfg, s, schedule[0]);
      NamesTurn(cfg, s, schedule[0]);
      MetRun(cfg, Apply(cfg, s, schedule[0]), schedule[1..]);
    }
  }

  lemma ReachableMet(cfg: Config, s: State)
    requires Sensible(cfg) && Reachable(cfg, s)
    ensures AllMet(s) && RecordsOk(s)
  {
    var s0, schedule :| Initial(cfg, s0) && s == Run(cfg, s0, schedule);
    InvAtFirst(cfg, s0);
    RecordsAtFirst(cfg, s0);
    assert forall e | 0 < e < CARS :: InitialCar(s0.cars[e]);
    MetRun(cfg, s0, schedule);
  }

  /** In every reachable state, whenever a car other than car 0 offers its token, one of
      its passengers is on that floor for it: to get out, or to get in. */
  lemma OpensForSomebody(cfg: Config, s: State, e: nat)
    requires Sensible(cfg) && Reachable(cfg, s) && 0 < e < CARS
    ensures |s.cars| == CARS
    ensures s.cars[e].ready ==> SomebodyThere(s.passengers, e, s.cars[e].floor)
  {
    ReachableInv(cfg, s);
    ReachableMet(cfg, s);
    assert CarOk(cfg, s.cars[e]) && Met(s.cars[e], e, s.passengers);
  }
}
