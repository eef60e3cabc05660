/** The four-car elevator as a transition system: the scheduler, its passenger
    and elevator threads, and the independent referee that ends the program on a
    violation. One action is one turn of one thread; a turn taken while its wait
    condition is false changes nothing, which covers spurious wake-ups. */
module Elevator {
  import opened NearestTarget

  const CARS: nat := 4
  const CAPACITY: nat := 3

  /** Building parameters; `trips` is the number of trips each passenger makes. */
  datatype Config = Config(floors: nat, passengers: nat, trips: nat)

  predicate Sensible(cfg: Config) {
    cfg.floors >= 2
  }

  predicate IsFloor(cfg: Config, f: int) {
    0 <= f < cfg.floors
  }

  function Draw(cfg: Config, pick: nat): (f: int)
    requires cfg.floors > 0
    ensures IsFloor(cfg, f)
  {
    pick % cfg.floors
  }

  function CarOf(p: nat): (e: nat)
    ensures e < CARS
  {
    p % CARS
  }

  /** Where a passenger thread stands. Each constructor is one statement, except
      that the wait test and the clearing of the token are a single turn. */
  datatype PassengerPc =
    | NextTrip
    | SetWaitAt | SetFrom | SetTo | SetElevator | SetStatus | CountStart
    | AwaitEntry | EntryCheck1 | EntryCheck2 | EntryAct
    | MarkRiding | CountIn | Link | PublishEntry
    | AwaitExit | ExitCheck1 | ExitCheck2 | ExitAct
    | CountOut | Unlink | PublishExit
    | CheckArrival | MoveOrigin | Finished

  datatype RefereeState = WAITING | ENTERED | EXITED

  /** `trips`, `origin`, `destination`, `at`, `inside` and `state` are the
      referee's record; `from`, `to`, `elevator` and `status` the scheduler's. */
  datatype Passenger = Passenger(
    pc: PassengerPc, trips: nat,
    origin: int, destination: int, at: int, inside: int, state: RefereeState,
    from: int, to: int, elevator: int, status: int)

  datatype CarPc =
    | Top | Gate | ScanRiders | ScanWaiters | SetTarget | SteerUp | SteerDown | Decide
    | OpenCheck1 | OpenCheck2 | OpenAct | ClearTarget | PublishReady
    | AwaitPassenger | ClearReady | CloseCheck | CloseAct
    | MoveCheck1 | MoveCheck2 | MoveAct | Settle | Halted

  /** `at`, `i` and `closest` are the elevator thread's locals; `floor` to `start`
      the scheduler's fields; `refFloor`, `open` and `aboard` the referee's. */
  datatype Car = Car(
    pc: CarPc, at: int, i: nat, closest: int,
    floor: int, direction: int, count: int, waitAt: int,
    ready: bool, passengerReady: bool, riding: seq<nat>, start: nat,
    refFloor: int, open: bool, aboard: int)

  /** The ways the program can be ended: the referee's messages, and the two ways
      removing a passenger who is not listed goes wrong. */
  datatype Violation =
    | WrongThread | BadPassengerCount
    | MoveWithDoorOpen | MoveOutsideBuilding | OpenWhenOpen | CloseWhenClosed
    | EntryOnWrongFloor | EntryThroughClosedDoor | EntryIntoFullCar | EntryWhenNotWaiting
    | ExitFromOtherCar | ExitOnWrongFloor | ExitThroughClosedDoor | ExitWhenNotInside
    | ArrivedElsewhere | NotOnRidingList

  datatype Option<+T> = None | Some(value: T)

  datatype State = State(cars: seq<Car>, passengers: seq<Passenger>, stop: bool, ended: Option<Violation>)

  /** Thread identity as the referee keeps it in thread-local variables. */
  datatype Thread = PassengerThread(id: nat) | ElevatorThread(id: nat)

  /** `pick` is the random number a passenger draws for its destination; it is
      looked at only in the turn that starts a trip. */
  datatype Action = PassengerTurn(p: nat, pick: nat) | ElevatorTurn(e: nat) | MainStops

  datatype Outcome<+T> = Go(next: T) | Wait | Fail(why: Violation)

  // ---------------------------------------------------------------- phases of the threads

  predicate DoorOpen(pc: CarPc) {
    || pc.ClearTarget? || pc.PublishReady? || pc.AwaitPassenger?
    || pc.ClearReady? || pc.CloseCheck? || pc.CloseAct?
  }

  /** Between calls of the scheduler. */
  predicate Outside(pc: CarPc) {
    pc.Top? || pc.Halted?
  }

  predicate Planning(pc: CarPc) {
    || pc.Gate? || pc.ScanRiders? || pc.ScanWaiters? || pc.SetTarget?
    || pc.SteerUp? || pc.SteerDown? || pc.Decide?
  }

  /** On the way from the decision to open until the token is offered. */
  predicate Opening(pc: CarPc) {
    pc.OpenCheck1? || pc.OpenCheck2? || pc.OpenAct? || pc.ClearTarget? || pc.PublishReady?
  }

  /** Between publishing `is_elevator_ready` and clearing `is_passenger_ready`. */
  predicate Serving(pc: CarPc) {
    pc.AwaitPassenger? || pc.ClearReady?
  }

  predicate Moving(pc: CarPc) {
    pc.MoveCheck1? || pc.MoveCheck2? || pc.MoveAct? || pc.Settle?
  }


  predicate Registering(pc: PassengerPc) {
    || pc.NextTrip? || pc.SetWaitAt? || pc.SetFrom? || pc.SetTo?
    || pc.SetElevator? || pc.SetStatus? || pc.CountStart?
  }

  /** Holding the token on the way in, before the referee has been told. */
  predicate BeforeEntry(pc: PassengerPc) {
    pc.EntryCheck1? || pc.EntryCheck2? || pc.EntryAct?
  }

  /** Holding the token on the way in, after the referee has been told. */
  predicate AfterEntry(pc: PassengerPc) {
    pc.MarkRiding? || pc.CountIn? || pc.Link? || pc.PublishEntry?
  }

  predicate BeforeExit(pc: PassengerPc) {
    pc.ExitCheck1? || pc.ExitCheck2? || pc.ExitAct?
  }

  predicate AfterExit(pc: PassengerPc) {
    pc.CountOut? || pc.Unlink? || pc.PublishExit?
  }

  predicate Entering(pc: PassengerPc) {
    BeforeEntry(pc) || AfterEntry(pc)
  }

  predicate Leaving(pc: PassengerPc) {
    BeforeExit(pc) || AfterExit(pc)
  }

  predicate HasExited(pc: PassengerPc) {
    pc.CheckArrival? || pc.MoveOrigin? || pc.Finished?
  }

  // ---------------------------------------------------------------- initial states

  predicate InitialCar(c: Car) {
    c == Car(Top, 0, 0, 0, 0, 1, 0, NO_TARGET, false, false, [], 0, 0, false, 0)
  }

  /** The scheduler's record is zero-initialised; the origin is random. */
  predicate InitialPassenger(cfg: Config, x: Passenger) {
    && IsFloor(cfg, x.origin)
    && x == Passenger(NextTrip, cfg.trips, x.origin, 0, x.origin, -1, WAITING, 0, 0, 0, 0)
  }

  ghost predicate Initial(cfg: Config, s: State) {
    && |s.cars| == CARS && |s.passengers| == cfg.passengers
    && !s.stop && s.ended == None
    && (forall e | 0 <= e < CARS :: InitialCar(s.cars[e]))
    && (forall p | 0 <= p < cfg.passengers :: InitialPassenger(cfg, s.passengers[p]))
  }

  // ---------------------------------------------------------------- the referee

  function ElevatorCheck(thread: Thread, e: nat, c: Car): Option<Violation> {
    if thread != ElevatorThread(e) then Some(WrongThread)
    else if c.aboard > CAPACITY || c.aboard < 0 then Some(BadPassengerCount)
    else None
  }

  function MoveCheck(cfg: Config, thread: Thread, e: nat, c: Car): Option<Violation> {
    if ElevatorCheck(thread, e, c).Some? then ElevatorCheck(thread, e, c)
    else if c.open then Some(MoveWithDoorOpen)
    else if c.refFloor >= cfg.floors || c.refFloor < 0 then Some(MoveOutsideBuilding)
    else None
  }

  function OpenCheck(thread: Thread, e: nat, c: Car): Option<Violation> {
    if ElevatorCheck(thread, e, c).Some? then ElevatorCheck(thread, e, c)
    else if c.open then Some(OpenWhenOpen)
    else None
  }

  function ShutCheck(thread: Thread, e: nat, c: Car): Option<Violation> {
    if ElevatorCheck(thread, e, c).Some? then ElevatorCheck(thread, e, c)
    else if !c.open then Some(CloseWhenClosed)
    else None
  }

  function EntryCheck(thread: Thread, p: nat, x: Passenger, c: Car): Option<Violation> {
    if thread != PassengerThread(p) then Some(WrongThread)
    else if x.origin != c.refFloor then Some(EntryOnWrongFloor)
    else if !c.open then Some(EntryThroughClosedDoor)
    else if c.aboard == CAPACITY then Some(EntryIntoFullCar)
    else if x.state != WAITING then Some(EntryWhenNotWaiting)
    else None
  }

  function ExitCheck(thread: Thread, p: nat, e: nat, x: Passenger, c: Car): Option<Violation> {
    if thread != PassengerThread(p) then Some(WrongThread)
    else if x.inside != e then Some(ExitFromOtherCar)
    else if x.destination != c.refFloor then Some(ExitOnWrongFloor)
    else if !c.open then Some(ExitThroughClosedDoor)
    else if x.state != ENTERED then Some(ExitWhenNotInside)
    else None
  }

  function Unless<T>(check: Option<Violation>, next: T): Outcome<T> {
    if check.Some? then Fail(check.value) else Go(next)
  }

  // ---------------------------------------------------------------- elevator threads

  predicate AsksFor(x: Passenger, e: nat) {
    x.status == 0 && x.elevator == e
  }

  /** One iteration of the scan over all passenger records. */
  function ScanWaiter(c: Car, e: nat, x: Passenger): Car {
    if AsksFor(x, e) then
      var first := if c.closest == NO_TARGET then x.from else c.closest;
      c.(waitAt := x.from, closest := Closer(first, x.from, c.at), i := c.i + 1)
    else
      c.(i := c.i + 1)
  }

  /** The direction is forced at the two end floors. */
  function Turned(cfg: Config, c: Car): int {
    if c.at == 0 then 1 else if c.at == cfg.floors - 1 then -1 else c.direction
  }

  /** Choosing where to go next and in which direction to move. */
  function PlanStep(cfg: Config, e: nat, c: Car, xs: seq<Passenger>): Outcome<Car> {
    match c.pc
    case Gate =>
      if c.start < 3 then Wait
      else if c.riding == [] then
        Go(c.(pc := ScanWaiters, direction := Turned(cfg, c), i := 0, closest := NO_TARGET))
      else if c.riding[0] >= |xs| then Wait
      else Go(c.(pc := ScanRiders, direction := Turned(cfg, c), i := 0, closest := xs[c.riding[0]].to))
    case ScanRiders =>
      if c.i + 1 >= |c.riding| then Go(c.(pc := SetTarget))
      else if c.riding[c.i + 1] >= |xs| then Wait
      else Go(c.(i := c.i + 1, closest := Closer(c.closest, xs[c.riding[c.i + 1]].to, c.at)))
    case ScanWaiters =>
      if c.i >= |xs| then Go(c.(pc := SetTarget)) else Go(ScanWaiter(c, e, xs[c.i]))
    case SetTarget => Go(c.(pc := SteerUp, waitAt := c.closest))
    case SteerUp =>
      Go(c.(pc := SteerDown, direction := if c.waitAt > c.at && c.direction == -1 then 1 else c.direction))
    case SteerDown =>
      Go(c.(pc := Decide,
            direction := if c.waitAt != NO_TARGET && c.waitAt < c.at && c.direction == 1 then -1 else c.direction))
    case Decide => Go(c.(pc := if c.waitAt == c.at then OpenCheck1 else MoveCheck1))
    case _ => Wait
  }

  /** Opening the door, handing out the token, taking it back and closing. */
  function DoorStep(e: nat, c: Car): Outcome<Car> {
    var open := OpenCheck(ElevatorThread(e), e, c);
    var shut := ShutCheck(ElevatorThread(e), e, c);
    match c.pc
    case OpenCheck1 => Unless(open, c.(pc := OpenCheck2))
    case OpenCheck2 => Unless(open, c.(pc := OpenAct))
    case OpenAct => Go(c.(pc := ClearTarget, open := true))
    case ClearTarget => Go(c.(pc := PublishReady, waitAt := NO_TARGET))
    case PublishReady => Go(c.(pc := AwaitPassenger, ready := true))
    case AwaitPassenger => if c.passengerReady then Go(c.(pc := ClearReady)) else Wait
    case ClearReady => Go(c.(pc := CloseCheck, passengerReady := false))
    case CloseCheck => Unless(shut, c.(pc := CloseAct))
    case CloseAct => Go(c.(pc := MoveCheck1, open := false))
    case _ => Wait
  }

  /** Moving one floor. */
  function MoveStep(cfg: Config, e: nat, c: Car): Outcome<Car> {
    var check := MoveCheck(cfg, ElevatorThread(e), e, c);
    match c.pc
    case MoveCheck1 => Unless(check, c.(pc := MoveCheck2))
    case MoveCheck2 => Unless(check, c.(pc := MoveAct))
    case MoveAct => Go(c.(pc := Settle, refFloor := c.refFloor + c.direction))
    case Settle => Go(c.(pc := Top, floor := c.at + c.direction))
    case _ => Wait
  }

  function ElevatorStep(cfg: Config, e: nat, c: Car, xs: seq<Passenger>, stop: bool): Outcome<Car> {
    if c.pc.Halted? then Wait
    else if c.pc.Top? then Go(if stop then c.(pc := Halted) else c.(pc := Gate, at := c.refFloor))
    else if Planning(c.pc) then PlanStep(cfg, e, c, xs)
    else if Moving(c.pc) then MoveStep(cfg, e, c)
    else DoorStep(e, c)
  }

  // ---------------------------------------------------------------- passenger threads

  /** The list without the first occurrence of `p`. */
  function Without(riding: seq<nat>, p: nat): seq<nat> {
    if riding == [] then []
    else if riding[0] == p then riding[1..]
    else [riding[0]] + Without(riding[1..], p)
  }

  /** Starting a trip and registering it with the scheduler, without any lock. */
  function RegisterStep(cfg: Config, p: nat, x: Passenger, c: Car, stop: bool, pick: nat): Outcome<(Passenger, Car)> {
    match x.pc
    case NextTrip =>
      if stop || x.trips == 0 || cfg.floors == 0 then Go((x.(pc := Finished), c))
      else Go((x.(pc := SetWaitAt, trips := x.trips - 1, destination := Draw(cfg, pick), state := WAITING), c))
    case SetWaitAt => Go((x.(pc := SetFrom), c.(waitAt := x.origin)))
    case SetFrom => Go((x.(pc := SetTo, from := x.origin), c))
    case SetTo => Go((x.(pc := SetElevator, to := x.destination), c))
    case SetElevator => Go((x.(pc := SetStatus, elevator := CarOf(p)), c))
    case SetStatus => Go((x.(pc := CountStart, status := 0), c))
    case CountStart => Go((x.(pc := AwaitEntry), c.(start := c.start + 1)))
    case _ => Wait
  }

  /** Waiting for the car, entering it and handing the token back. */
  function EntryStep(p: nat, x: Passenger, c: Car): Outcome<(Passenger, Car)> {
    var check := EntryCheck(PassengerThread(p), p, x, c);
    match x.pc
    case AwaitEntry =>
      if c.ready && c.floor == x.origin && c.count < CAPACITY
      then Go((x.(pc := EntryCheck1), c.(waitAt := x.origin, ready := false)))
      else Wait
    case EntryCheck1 => Unless(check, (x.(pc := EntryCheck2), c))
    case EntryCheck2 => Unless(check, (x.(pc := EntryAct), c))
    case EntryAct => Go((x.(pc := MarkRiding, inside := CarOf(p), state := ENTERED), c.(aboard := c.aboard + 1)))
    case MarkRiding => Go((x.(pc := CountIn, status := 1), c))
    case CountIn => Go((x.(pc := Link), c.(count := c.count + 1)))
    case Link => Go((x.(pc := PublishEntry), c.(riding := c.riding + [p])))
    case PublishEntry => Go((x.(pc := AwaitExit), c.(passengerReady := true)))
    case _ => Wait
  }

  /** Waiting for the destination, leaving the car and handing the token back. */
  function ExitStep(p: nat, x: Passenger, c: Car): Outcome<(Passenger, Car)> {
    var check := ExitCheck(PassengerThread(p), p, CarOf(p), x, c);
    match x.pc
    case AwaitExit =>
      if c.ready && c.floor == x.destination
      then Go((x.(pc := ExitCheck1), c.(ready := false)))
      else Wait
    case ExitCheck1 => Unless(check, (x.(pc := ExitCheck2), c))
    case ExitCheck2 => Unless(check, (x.(pc := ExitAct), c))
    case ExitAct =>
      Go((x.(pc := CountOut, inside := -1, at := c.refFloor, state := EXITED), c.(aboard := c.aboard - 1)))
    case CountOut => Go((x.(pc := Unlink), c.(count := c.count - 1)))
    case Unlink =>
      if p in c.riding then Go((x.(pc := PublishExit), c.(riding := Without(c.riding, p)))) else Fail(NotOnRidingList)
    case PublishExit => Go((x.(pc := CheckArrival), c.(passengerReady := true)))
    case _ => Wait
  }

  /** Back in the referee's loop. */
  function ArrivalStep(x: Passenger, c: Car): Outcome<(Passenger, Car)> {
    match x.pc
    case CheckArrival => if x.at != x.destination then Fail(ArrivedElsewhere) else Go((x.(pc := MoveOrigin), c))
    case MoveOrigin => Go((x.(pc := NextTrip, origin := x.destination), c))
    case _ => Wait
  }

  function PassengerStep(cfg: Config, p: nat, x: Passenger, c: Car, stop: bool, pick: nat): Outcome<(Passenger, Car)> {
    if Registering(x.pc) then RegisterStep(cfg, p, x, c, stop, pick)
    else if x.pc.AwaitEntry? || Entering(x.pc) then EntryStep(p, x, c)
    else if x.pc.AwaitExit? || Leaving(x.pc) then ExitStep(p, x, c)
    else ArrivalStep(x, c)
  }

  // ---------------------------------------------------------------- whole system

  predicate EveryoneFinished(s: State) {
    forall p | 0 <= p < |s.passengers| :: s.passengers[p].pc.Finished?
  }

  function Apply(cfg: Config, s: State, a: Action): State {
    if s.ended.Some? then s else
    match a
    case PassengerTurn(p, pick) =>
      if p >= |s.passengers| || CarOf(p) >= |s.cars| then s else
      (match PassengerStep(cfg, p, s.passengers[p], s.cars[CarOf(p)], s.stop, pick)
       case Go(next) => s.(passengers := s.passengers[p := next.0], cars := s.cars[CarOf(p) := next.1])
       case Wait => s
       case Fail(why) => s.(ended := Some(why)))
    case ElevatorTurn(e) =>
      if e >= |s.cars| then s else
      (match ElevatorStep(cfg, e, s.cars[e], s.passengers, s.stop)
       case Go(next) => s.(cars := s.cars[e := next])
       case Wait => s
       case Fail(why) => s.(ended := Some(why)))
    case MainStops =>
      if EveryoneFinished(s) then s.(stop := true) else s
  }

  /** A run is any schedule of turns, played from a state. */
  function Run(cfg: Config, s: State, schedule: seq<Action>): State
    decreases |schedule|
  {
    if schedule == [] then s else Run(cfg, Apply(cfg, s, schedule[0]), schedule[1..])
  }
}
