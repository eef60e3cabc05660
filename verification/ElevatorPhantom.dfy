/** Why delivery needs all records of a car to be written: a passenger's record that
    has not been written yet reads as a request to car 0 from floor 0. Car 0 then
    opens its door there for nobody, and its passengers wait for ever. */
module ElevatorPhantom {
  import opened NearestTarget
  import opened Elevator
  import opened ElevatorSafety
  import opened ElevatorDelivery
  import opened ElevatorStarts
  import opened ElevatorBounds
  import opened ElevatorRuns

  // ---------------------------------------------------------------- whose records can mislead

  /** A record names car 0 or the passenger's own car. */
  ghost predicate NamesZeroOrOwn(s: State) {
    forall p | 0 <= p < |s.passengers| :: s.passengers[p].elevator == 0 || s.passengers[p].elevator == CarOf(p)
  }

  lemma NamesTurn(cfg: Config, s: State, a: Action)
    requires NamesZeroOrOwn(s)
    ensures NamesZeroOrOwn(Apply(cfg, s, a))
  {
    if a.PassengerTurn? && a.p < |s.passengers| && CarOf(a.p) < |s.cars| {
      RecordStep(cfg, a.p, s.passengers[a.p], s.cars[CarOf(a.p)], s.stop, a.pick);
    }
  }

  lemma {:induction false} NamesRun(cfg: Config, s: State, schedule: seq<Action>)
    requires NamesZeroOrOwn(s)
    ensures NamesZeroOrOwn(Run(cfg, s, schedule))
    decreases |schedule|
  {
    if schedule != [] {
      NamesTurn(cfg, s, schedule[0]);
      NamesRun(cfg, Apply(cfg, s, schedule[0]), schedule[1..]);
    }
  }

  /** Only car 0 can be misled: for the others it is enough that their own
      passengers have registered. */
  lemma OnlyCarZeroIsMisled(cfg: Config, s: State, e: nat)
    requires Reachable(cfg, s) && 0 < e < CARS
    requires forall p | 0 <= p < |s.passengers| && CarOf(p) == e :: IsRegistered(s.passengers[p])
    ensures RegisteredFor(s, e)
  {
    var s0, schedule :| Initial(cfg, s0) && s == Run(cfg, s0, schedule);
    assert forall p | 0 <= p < |s0.passengers| :: InitialPassenger(cfg, s0.passengers[p]);
    NamesRun(cfg, s0, schedule);
  }

  // ---------------------------------------------------------------- the deadlock

  /** Car 0 is on floor 0 with nobody riding, its own passengers all wait on other
      floors, and the record of some other car's passenger is unwritten. */
  ghost predicate Misled(cfg: Config, s: State) {
    && Sensible(cfg) && Live(cfg, s)
    && Resting(cfg, s.cars[0], 0, []) && s.cars[0].start >= 3
    && (forall p | 0 <= p < |s.passengers| && CarOf(p) == 0 :: WaitsElsewhere(s.passengers[p]))
    && (exists q | 0 <= q < |s.passengers| :: AsksFor(s.passengers[q], 0) && s.passengers[q].from == 0)
  }

  predicate WaitsElsewhere(x: Passenger) {
    x.pc.AwaitEntry? && x.origin != 0
  }

  /** So it goes for floor 0. */
  lemma MisledTarget(cfg: Config, s: State)
    requires Misled(cfg, s)
    ensures NearestOrNone(Asked(s.cars[0], s.passengers, 0), 0) == 0
  {
    var xs := s.passengers;
    var q :| 0 <= q < |xs| && AsksFor(xs[q], 0) && xs[q].from == 0;
    WaiterFloorsHas(xs, 0, |xs|, q);
    NearestIsLeast(WaiterFloors(xs, 0, |xs|), 0);
  }

  /** And opens its door there, where none of its own passengers waits. */
  lemma MisledOpens(cfg: Config, s: State) returns (t: State)
    requires Misled(cfg, s)
    ensures Live(cfg, t) && t.passengers == s.passengers && Stuck(t, 0)
  {
    ReachableInv(cfg, s);
    MisledTarget(cfg, s);
    t := OpensHere(cfg, s, 0, 0, []);
    assert forall p | 0 <= p < |t.passengers| && CarOf(p) == 0 :: WaitsElsewhere(t.passengers[p]);
  }

  // ---------------------------------------------------------------- an instance

  /** In every building of at least nine passengers, some run gets
      there: the passengers of car 0 want to leave floor 1 and register before anybody
      else does. */
  lemma MisledIsReachable(cfg: Config) returns (s: State)
    requires Sensible(cfg) && cfg.trips > 0 && cfg.passengers >= 9
    ensures Misled(cfg, s)
  {
    s := Gathers(cfg, 0, 1, cfg.passengers, cfg.passengers);
    PassengersOfIs(0, cfg.passengers);
    assert s.passengers[1] == Newcomer(cfg, 1) && AsksFor(s.passengers[1], 0);
    forall p | 0 <= p < |s.passengers| && CarOf(p) == 0
      ensures WaitsElsewhere(s.passengers[p])
    {
      assert s.passengers[p] == AfterRegistration(p, Newcomer(cfg, 1));
    }
  }

  /** So, in such a building, some run gets to a state from which no run whatever
      lets a single passenger of car 0 in, although all of them have registered. */
  lemma CarZeroCanDeadlock(cfg: Config) returns (t: State)
    requires Sensible(cfg) && cfg.trips > 0 && cfg.passengers >= 9
    ensures Reachable(cfg, t) && Stuck(t, 0)
    ensures forall p | 0 <= p < |t.passengers| && CarOf(p) == 0 ::
              t.passengers[p].pc.AwaitEntry?
    ensures forall more: seq<Action> ::
      var u := Run(cfg, t, more);
      && |u.passengers| == |t.passengers|
      && (forall p | 0 <= p < |t.passengers| && CarOf(p) == 0 :: u.passengers[p] == t.passengers[p])
  {
    var s := MisledIsReachable(cfg);
    t := MisledOpens(cfg, s);
    assert forall p | 0 <= p < |t.passengers| && CarOf(p) == 0 :: WaitsElsewhere(t.passengers[p]);
    forall more: seq<Action>
      ensures |Run(cfg, t, more).passengers| == |t.passengers|
      ensures forall p | 0 <= p < |t.passengers| && CarOf(p) == 0 ::
                Run(cfg, t, more).passengers[p] == t.passengers[p]
    {
      StuckForEver(cfg, t, more, 0);
    }
  }

  // ---------------------------------------------------------------- records being written

  /** Car 0 has looked at the first record only; passenger 1 has not begun to write his. */
  lemma CarZeroScans(cfg: Config) returns (s: State)
    requires Sensible(cfg) && cfg.trips > 0 && cfg.passengers >= 9
    ensures Reachable(cfg, s) && |s.cars| == CARS && |s.passengers| == cfg.passengers && s.ended == None && !s.stop
    ensures s.cars[0].pc.ScanWaiters? && s.cars[0].i == 1 && s.cars[0].closest == 1 && s.cars[0].at == 0
    ensures s.passengers[1] == Newcomer(cfg, 1)
  {
    var t := Gathers(cfg, 0, 1, cfg.passengers, cfg.passengers);
    PassengersOfIs(0, cfg.passengers);
    var c := t.cars[0];
    var scan := c.(pc := ScanWaiters, direction := Turned(cfg, c), i := 0, closest := NO_TARGET);
    var seen := scan.(i := 1, closest := 1, waitAt := 1);
    assert t.passengers[0] == AfterRegistration(0, Newcomer(cfg, 1));
    ThreeTurns(cfg, 0, c, t.passengers, c.(pc := Gate), scan, seen);
    s := Drives(cfg, t, 0, 3, seen);
  }

  /** And now he is about to write the floor he waits at. */
  lemma Scanning(cfg: Config) returns (s: State)
    requires Sensible(cfg) && cfg.trips > 0 && cfg.passengers >= 9
    ensures Reachable(cfg, s) && |s.cars| == CARS && |s.passengers| == cfg.passengers && s.ended == None
    ensures s.cars[0].pc.ScanWaiters? && s.cars[0].i == 1 && s.cars[0].closest == 1 && s.cars[0].at == 0
    ensures s.passengers[1] == Newcomer(cfg, 1).(pc := SetFrom, trips := cfg.trips - 1)
  {
    var t := CarZeroScans(cfg);
    var b := PassengerTurn(1, 0);
    assert Draw(cfg, 0) == 0;
    var u := t.(passengers := t.passengers[1 := Newcomer(cfg, 1).(pc := SetWaitAt, trips := cfg.trips - 1)]);
    assert Apply(cfg, t, b) == u;
    s := Apply(cfg, u, b);
    FirstTurn(cfg, t, b, Repeat(b, 1));
    FirstTurn(cfg, u, b, Repeat(b, 0));
    ReachableFurther(cfg, t, Repeat(b, 2));
  }

  /** While records are still being written, turns of different cars' threads need not
      commute: car 0 may or may not see what passenger 1, of car 1, is just writing. */
  lemma UnwrittenRecordsInterfere(cfg: Config) returns (s: State)
    requires Sensible(cfg) && cfg.trips > 0 && cfg.passengers >= 9
    ensures Reachable(cfg, s)
    ensures Apply(cfg, Apply(cfg, s, ElevatorTurn(0)), PassengerTurn(1, 0))
         != Apply(cfg, Apply(cfg, s, PassengerTurn(1, 0)), ElevatorTurn(0))
  {
    s := Scanning(cfg);
    var a, b := ElevatorTurn(0), PassengerTurn(1, 0);
    var x := s.passengers[1];
    assert Apply(cfg, s, a).cars[0].closest == 0;
    assert Apply(cfg, Apply(cfg, s, a), b).cars[0].closest == 0;
    assert Apply(cfg, s, b).passengers[1] == x.(pc := SetTo, from := 1);
    assert Apply(cfg, Apply(cfg, s, b), a).cars[0].closest == 1;
  }
}
