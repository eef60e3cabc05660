/** What a passenger's trips amount to: they start on any floor, go to any floor, each one
    starts where the last one ended, and there are as many as were configured. */
module ElevatorTrips {
  import opened Elevator
  import opened Census
  import opened ElevatorSafety

  // ---------------------------------------------------------------- random floors

  /** Each passenger may start on any floor, whatever floors the others start on. */
  lemma AnyOrigins(cfg: Config, origins: seq<int>) returns (s: State)
    requires |origins| == cfg.passengers && forall p | 0 <= p < |origins| :: IsFloor(cfg, origins[p])
    ensures Initial(cfg, s) && Reachable(cfg, s)
    ensures forall p | 0 <= p < |origins| :: s.passengers[p].origin == s.passengers[p].at == origins[p]
  {
    s := State(seq(CARS, _ => Car(Top, 0, 0, 0, 0, 1, 0, -1, false, false, [], 0, 0, false, 0)),
               seq(cfg.passengers, p requires 0 <= p < cfg.passengers =>
                     Passenger(NextTrip, cfg.trips, origins[p], 0, origins[p], -1, WAITING, 0, 0, 0, 0)),
               false, None);
    assert s == Run(cfg, s, []);
  }

  lemma RemainderOfSmall(f: nat, floors: nat)
    requires f < floors
    ensures f % floors == f
  {
  }

  /** A passenger who begins a trip may draw any floor as its destination. */
  lemma AnyDestination(cfg: Config, s: State, p: nat, f: int) returns (pick: nat)
    requires Sensible(cfg) && Reachable(cfg, s) && p < |s.passengers| && IsFloor(cfg, f)
    requires s.passengers[p].pc.NextTrip? && s.passengers[p].trips > 0 && !s.stop
    ensures var t, x := Apply(cfg, s, PassengerTurn(p, pick)), s.passengers[p];
      && |t.passengers| == |s.passengers|
      && t.passengers[p] == x.(pc := SetWaitAt, trips := x.trips - 1, destination := f, state := WAITING)
  {
    ReachableInv(cfg, s);
    pick := f;
    RemainderOfSmall(f, cfg.floors);
  }

  // ---------------------------------------------------------------- from where to where

  /** Where the referee last saw the passenger: on the floor the trip starts on until he
      has left the car, and then on the floor it ends on; and which car he is in. */
  predicate InPlace(p: nat, x: Passenger) {
    && x.at == (if AfterExit(x.pc) || x.pc.CheckArrival? || x.pc.MoveOrigin? then x.destination else x.origin)
    && x.inside == (if Is(Aboard, x.pc) then CarOf(p) else -1)
  }

  lemma RegisterInPlace(cfg: Config, p: nat, x: Passenger, c: Car, stop: bool, pick: nat)
    requires InPlace(p, x) && Registering(x.pc)
    ensures var r := RegisterStep(cfg, p, x, c, stop, pick); r.Go? ==> InPlace(p, r.next.0)
  {
  }

  lemma EntryInPlace(p: nat, x: Passenger, c: Car)
    requires InPlace(p, x) && (x.pc.AwaitEntry? || Entering(x.pc))
    ensures var r := EntryStep(p, x, c); r.Go? ==> InPlace(p, r.next.0)
  {
  }

  lemma ExitInPlace(p: nat, x: Passenger, c: Car)
    requires InPlace(p, x) && (x.pc.AwaitExit? || Leaving(x.pc)) && (x.pc.ExitAct? ==> x.destination == c.refFloor)
    ensures var r := ExitStep(p, x, c); r.Go? ==> InPlace(p, r.next.0)
  {
  }

  lemma StepInPlace(cfg: Config, p: nat, x: Passenger, c: Car, stop: bool, pick: nat)
    requires InPlace(p, x) && (x.pc.ExitAct? ==> x.destination == c.refFloor)
    ensures var r := PassengerStep(cfg, p, x, c, stop, pick); r.Go? ==> InPlace(p, r.next.0)
  {
    if Registering(x.pc) {
      RegisterInPlace(cfg, p, x, c, stop, pick);
    } else if x.pc.AwaitEntry? || Entering(x.pc) {
      EntryInPlace(p, x, c);
    } else if x.pc.AwaitExit? || Leaving(x.pc) {
      ExitInPlace(p, x, c);
    }
  }

  ghost predicate AllInPlace(s: State) {
    forall p | 0 <= p < |s.passengers| :: InPlace(p, s.passengers[p])
  }

  lemma TurnInPlace(cfg: Config, s: State, a: Action)
    requires Sensible(cfg) && Inv(cfg, s) && AllInPlace(s)
    ensures AllInPlace(Apply(cfg, s, a))
  {
    if a.PassengerTurn? && a.p < |s.passengers| {
      var c := s.cars[CarOf(a.p)];
      assert Tied(a.p, s.passengers[a.p], c) && CarOk(cfg, c);
      LeavesAtDestination(cfg, s, a.p);
      StepInPlace(cfg, a.p, s.passengers[a.p], c, s.stop, a.pick);
    }
  }

  lemma LeavesAtDestination(cfg: Config, s: State, p: nat)
    requires Sensible(cfg) && Inv(cfg, s) && p < |s.passengers|
    ensures s.passengers[p].pc.ExitAct? ==> s.passengers[p].destination == s.cars[CarOf(p)].refFloor
  {
    var xs, e := s.passengers, CarOf(p);
    TallyCounts(xs, p);
    TallyConsistent(xs, e);
    assert CountsOk(s.cars[e], TallyOf(xs, e)) && CarOk(cfg, s.cars[e]);
    PassengerActIsAllowed(cfg, p, xs[p], s.cars[e], TallyOf(xs, e));
  }

  lemma {:induction false} RunInPlace(cfg: Config, s: State, schedule: seq<Action>)
    requires Sensible(cfg) && Inv(cfg, s) && AllInPlace(s)
    ensures AllInPlace(Run(cfg, s, schedule))
    decreases |schedule|
  {
    if schedule != [] {
      TurnInPlace(cfg, s, schedule[0]);
      TurnKeepsInv(cfg, s, schedule[0]);
      RunInPlace(cfg, Apply(cfg, s, schedule[0]), schedule[1..]);
    }
  }

  /** Every trip starts where the one before it ended, and the first where the passenger
      was put: until he has left the car the referee has him on the floor he registered
      from. And it has him in his car exactly from entry to exit. */
  lemma TripsJoin(cfg: Config, s: State, p: nat)
    requires Sensible(cfg) && Reachable(cfg, s) && p < |s.passengers|
    ensures var x := s.passengers[p];
      && x.at == (if AfterExit(x.pc) || x.pc.CheckArrival? || x.pc.MoveOrigin? then x.destination else x.origin)
      && x.inside == (if x.state == ENTERED then CarOf(p) else -1)
  {
    var s0, schedule :| Initial(cfg, s0) && s == Run(cfg, s0, schedule);
    InvAtFirst(cfg, s0);
    forall q | 0 <= q < |s0.passengers|
      ensures InPlace(q, s0.passengers[q])
    {
      assert InitialPassenger(cfg, s0.passengers[q]);
    }
    RunInPlace(cfg, s0, schedule);
    assert InPlace(p, s.passengers[p]);
    assert PassengerOk(cfg, p, s.passengers[p]) by {
      ReachableInv(cfg, s);
    }
  }

  // ---------------------------------------------------------------- how many trips

  /** The turn in which passenger `p` leaves a car. */
  predicate Arrives(s: State, a: Action, p: nat) {
    a.PassengerTurn? && a.p == p < |s.passengers| && s.passengers[p].pc.ExitAct?
  }

  /** How often passenger `p` leaves a car during a run. */
  function Arrivals(cfg: Config, s: State, schedule: seq<Action>, p: nat): nat
    decreases |schedule|
  {
    if schedule == [] then 0
    else One(Arrives(s, schedule[0], p)) + Arrivals(cfg, Apply(cfg, s, schedule[0]), schedule[1..], p)
  }

  /** Trips that are still to end. */
  function TripsLeft(x: Passenger): nat {
    x.trips + One(!(x.pc.NextTrip? || AfterExit(x.pc) || HasExited(x.pc)))
  }

  lemma StepUsesTrip(cfg: Config, p: nat, x: Passenger, c: Car, stop: bool, pick: nat)
    requires stop ==> x.pc.Finished?
    requires cfg.floors > 0 && (x.pc.Finished? ==> x.trips == 0)
    ensures var r := PassengerStep(cfg, p, x, c, stop, pick);
      r.Go? ==>
        && TripsLeft(r.next.0) + One(x.pc.ExitAct?) == TripsLeft(x)
        && (r.next.0.pc.Finished? ==> r.next.0.trips == 0)
    ensures x.pc.ExitAct? ==> PassengerStep(cfg, p, x, c, stop, pick).Go?
  {
  }

  lemma TurnUsesTrip(cfg: Config, s: State, a: Action, p: nat)
    requires Sensible(cfg) && Inv(cfg, s) && p < |s.passengers|
    requires s.passengers[p].pc.Finished? ==> s.passengers[p].trips == 0
    ensures var t := Apply(cfg, s, a);
      && |t.passengers| == |s.passengers|
      && TripsLeft(t.passengers[p]) + One(Arrives(s, a, p)) == TripsLeft(s.passengers[p])
      && (t.passengers[p].pc.Finished? ==> t.passengers[p].trips == 0)
  {
    if a.PassengerTurn? && a.p == p {
      OwnTurnUsesTrip(cfg, s, p, a.pick);
    } else {
      OtherTurn(cfg, s, a, p);
    }
  }

  lemma OtherTurn(cfg: Config, s: State, a: Action, p: nat)
    requires p < |s.passengers| && !(a.PassengerTurn? && a.p == p)
    ensures |Apply(cfg, s, a).passengers| == |s.passengers| && Apply(cfg, s, a).passengers[p] == s.passengers[p]
  {
  }

  lemma OwnTurnUsesTrip(cfg: Config, s: State, p: nat, pick: nat)
    requires Sensible(cfg) && Inv(cfg, s) && p < |s.passengers|
    requires s.passengers[p].pc.Finished? ==> s.passengers[p].trips == 0
    ensures var x, t := s.passengers[p], Apply(cfg, s, PassengerTurn(p, pick));
      && |t.passengers| == |s.passengers|
      && TripsLeft(t.passengers[p]) + One(x.pc.ExitAct?) == TripsLeft(x)
      && (t.passengers[p].pc.Finished? ==> t.passengers[p].trips == 0)
  {
    StepUsesTrip(cfg, p, s.passengers[p], s.cars[CarOf(p)], s.stop, pick);
  }

  lemma {:induction false} TripsOfRun(cfg: Config, s: State, schedule: seq<Action>, p: nat)
    requires Sensible(cfg) && Inv(cfg, s) && p < |s.passengers|
    requires s.passengers[p].pc.Finished? ==> s.passengers[p].trips == 0
    ensures var t := Run(cfg, s, schedule);
      && |t.passengers| == |s.passengers|
      && TripsLeft(t.passengers[p]) + Arrivals(cfg, s, schedule, p) == TripsLeft(s.passengers[p])
      && (t.passengers[p].pc.Finished? ==> t.passengers[p].trips == 0)
    decreases |schedule|
  {
    if schedule != [] {
      TurnUsesTrip(cfg, s, schedule[0], p);
      TurnKeepsInv(cfg, s, schedule[0]);
      TripsOfRun(cfg, Apply(cfg, s, schedule[0]), schedule[1..], p);
    }
  }

  /** In every run from the start the trips a passenger has ended and those still to end
      are as many as were configured; whoever has finished has ended them all. */
  lemma TripsAddUp(cfg: Config, s0: State, schedule: seq<Action>, p: nat)
    requires Sensible(cfg) && Initial(cfg, s0) && p < cfg.passengers
    ensures var t := Run(cfg, s0, schedule);
      && |t.passengers| == cfg.passengers
      && Arrivals(cfg, s0, schedule, p) + TripsLeft(t.passengers[p]) == cfg.trips
      && (t.passengers[p].pc.Finished? ==> Arrivals(cfg, s0, schedule, p) == cfg.trips)
  {
    InvAtFirst(cfg, s0);
    assert InitialPassenger(cfg, s0.passengers[p]);
    TripsOfRun(cfg, s0, schedule, p);
  }

  // ---------------------------------------------------------------- the order of boarding

  /** `p` stands before `q` on the list. */
  ghost predicate Before(riding: seq<nat>, p: nat, q: nat) {
    exists i, j :: 0 <= i < j < |riding| && riding[i] == p && riding[j] == q
  }

  lemma {:induction false} WithoutKeepsOrder(riding: seq<nat>, r: nat, p: nat, q: nat)
    requires Distinct(riding) && Before(riding, p, q) && p != r && q != r
    ensures Before(Without(riding, r), p, q)
  {
    var i, j :| 0 <= i < j < |riding| && riding[i] == p && riding[j] == q;
    if riding[0] == r {
      assert riding[1..][i - 1] == p && riding[1..][j - 1] == q;
    } else {
      var rest := Without(riding[1..], r);
      assert Without(riding, r) == [riding[0]] + rest;
      assert riding[1..][j - 1] == q;
      if i == 0 {
        StaysWithout(riding[1..], r, q);
        var k :| 0 <= k < |rest| && rest[k] == q;
        assert ([riding[0]] + rest)[0] == p && ([riding[0]] + rest)[k + 1] == q;
      } else {
        assert riding[1..][i - 1] == p;
        WithoutKeepsOrder(riding[1..], r, p, q);
        var k, m :| 0 <= k < m < |rest| && rest[k] == p && rest[m] == q;
        assert ([riding[0]] + rest)[k + 1] == p && ([riding[0]] + rest)[m + 1] == q;
      }
    }
  }

  lemma {:induction false} StaysWithout(riding: seq<nat>, r: nat, q: nat)
    requires q in riding && q != r
    ensures q in Without(riding, r)
  {
    if riding[0] != r && riding[0] != q {
      StaysWithout(riding[1..], r, q);
    }
  }

  lemma AppendKeepsOrder(riding: seq<nat>, r: nat, p: nat, q: nat)
    requires p in riding && (Before(riding, p, q) || q == r)
    ensures Before(riding + [r], p, q)
  {
    if Before(riding, p, q) {
      var i, j :| 0 <= i < j < |riding| && riding[i] == p && riding[j] == q;
      assert (riding + [r])[i] == p && (riding + [r])[j] == q;
    } else {
      var i :| 0 <= i < |riding| && riding[i] == p;
      assert (riding + [r])[i] == p && (riding + [r])[|riding|] == q;
    }
  }

  /** What a turn can do to a riding list. */
  datatype ListChange = Same | Added(r: nat) | Removed(r: nat)

  predicate Changes(was: seq<nat>, change: ListChange, now: seq<nat>) {
    match change
    case Same => now == was
    case Added(r) => now == was + [r]
    case Removed(r) => r in was && now == Without(was, r)
  }

  lemma ChangeKeepsOrder(was: seq<nat>, change: ListChange, now: seq<nat>, p: nat, q: nat)
    requires Distinct(was) && Changes(was, change, now)
    requires p in was && p != q && (q in was ==> Before(was, p, q)) && p in now && q in now
    ensures Before(now, p, q)
  {
    match change
    case Same =>
    case Added(r) => AppendKeepsOrder(was, r, p, q);
    case Removed(r) =>
      WithoutRemovesOne(was, r);
      WithoutKeepsOrder(was, r, p, q);
  }

  lemma StepChanges(cfg: Config, a: nat, x: Passenger, c: Car, stop: bool, pick: nat) returns (change: ListChange)
    ensures var r := PassengerStep(cfg, a, x, c, stop, pick); r.Go? ==> Changes(c.riding, change, r.next.1.riding)
  {
    change := if x.pc.Link? then Added(a) else if x.pc.Unlink? && a in c.riding then Removed(a) else Same;
  }

  lemma PassengerTurnChanges(cfg: Config, s: State, a: nat, pick: nat, e: nat) returns (change: ListChange)
    requires |s.cars| == CARS && e < CARS
    ensures var t := Apply(cfg, s, PassengerTurn(a, pick));
      |t.cars| == CARS && Changes(s.cars[e].riding, change, t.cars[e].riding)
  {
    change := Same;
    if s.ended.None? && a < |s.passengers| && CarOf(a) == e {
      var r := PassengerStep(cfg, a, s.passengers[a], s.cars[e], s.stop, pick);
      if r.Go? {
        change := StepChanges(cfg, a, s.passengers[a], s.cars[e], s.stop, pick);
      }
    }
  }

  lemma ElevatorTurnChanges(cfg: Config, s: State, d: nat, e: nat)
    requires Sensible(cfg) && Inv(cfg, s) && e < CARS
    ensures var t := Apply(cfg, s, ElevatorTurn(d)); |t.cars| == CARS && t.cars[e].riding == s.cars[e].riding
  {
    if d < CARS {
      TallyConsistent(s.passengers, d);
      ElevatorStepOk(cfg, d, s.cars[d], TallyOf(s.passengers, d), s.passengers, s.stop);
    }
  }

  lemma TurnChanges(cfg: Config, s: State, a: Action, e: nat) returns (change: ListChange)
    requires Sensible(cfg) && Inv(cfg, s) && e < CARS
    ensures var t := Apply(cfg, s, a); |t.cars| == CARS && Changes(s.cars[e].riding, change, t.cars[e].riding)
  {
    change := Same;
    match a
    case PassengerTurn(b, pick) => change := PassengerTurnChanges(cfg, s, b, pick, e);
    case ElevatorTurn(d) => ElevatorTurnChanges(cfg, s, d, e);
    case MainStops =>
  }

  /** The riding list is in the order of boarding: no turn of any thread changes the order
      of two riders who stay on it, and whoever is put on it comes after all who are. */
  lemma RidersStayInOrder(cfg: Config, s: State, a: Action, e: nat, p: nat, q: nat)
    requires Sensible(cfg) && Reachable(cfg, s) && e < CARS && |s.cars| == CARS
    requires p in s.cars[e].riding && p != q && (q in s.cars[e].riding ==> Before(s.cars[e].riding, p, q))
    ensures var t := Apply(cfg, s, a);
      |t.cars| == CARS && (p in t.cars[e].riding && q in t.cars[e].riding ==> Before(t.cars[e].riding, p, q))
  {
    ReachableInv(cfg, s);
    var was, now := s.cars[e].riding, Apply(cfg, s, a).cars[e].riding;
    var change := TurnChanges(cfg, s, a, e);
    assert ListOk(e, was, |s.passengers|);
    if p in now && q in now {
      ChangeKeepsOrder(was, change, now, p, q);
    }
  }
}
