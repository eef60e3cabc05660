/** The scheduler's records as it keeps them: objects linked through `next` into one
    riding list per elevator, relinked in place and scanned by loops. Each method is
    tied to the value the transition system uses for the same thing. */
module RidingList {
  import opened NearestTarget
  import opened Elevator
  import opened ElevatorSafety
  import opened ElevatorDelivery
  import opened ElevatorProgress

  /** A passenger's record; also a node of at most one riding list. */
  class PassengerInfo {
    /** The passenger's number: which entry of the array the record is. */
    const id: nat
    var fromFloor: int
    var toFloor: int
    var eleNumber: int
    var status: int
    var next: PassengerInfo?

    constructor (id: nat)
      ensures this.id == id && next == null
    {
      this.id := id;
      next := null;
    }
  }

  /** The objects hold what the values say. */
  ghost predicate Records(ps: seq<PassengerInfo>, xs: seq<Passenger>)
    reads ps
  {
    && |ps| == |xs|
    && forall p {:trigger ps[p]} | 0 <= p < |ps| ::
         ps[p].id == p && ps[p].fromFloor == xs[p].from && ps[p].toFloor == xs[p].to
         && ps[p].eleNumber == xs[p].elevator && ps[p].status == xs[p].status
  }

  /** What the C code does when asked to take off somebody who is not listed. */
  datatype Removal = Removed | AssertionFailed | NullDereference

  ghost function IdsOf(ns: seq<PassengerInfo>): (ids: seq<nat>)
    ensures |ids| == |ns|
  {
    seq(|ns|, i requires 0 <= i < |ns| => ns[i].id)
  }

  predicate DistinctIds(ns: seq<PassengerInfo>) {
    forall i, j | 0 <= i < j < |ns| :: ns[i].id != ns[j].id
  }

  lemma LeavingOut(ns: seq<PassengerInfo>, k: nat)
    requires k < |ns| && DistinctIds(ns)
    ensures var rest := ns[..k] + ns[k + 1..];
      DistinctIds(rest) && ns[k] !in rest && forall p | p in rest :: p in ns
  {
    var rest := ns[..k] + ns[k + 1..];
    assert forall j | 0 <= j < |rest| :: rest[j] == ns[if j < k then j else j + 1];
  }

  lemma {:induction false} NoNegativeFloors(xs: seq<Passenger>, e: nat, m: nat)
    requires m <= |xs| && forall x | x in xs :: x.from >= 0
    ensures forall f | f in WaiterFloors(xs, e, m) :: f >= 0
  {
    if m > 0 {
      NoNegativeFloors(xs, e, m - 1);
      assert xs[m - 1] in xs;
    }
  }

  /** One record further on in the scan. */
  lemma OneMoreRecord(xs: seq<Passenger>, e: nat, i: nat, at: int)
    requires i < |xs| && forall x | x in xs :: x.from >= 0
    ensures var so, x := NearestOrNone(WaiterFloors(xs, e, i), at), xs[i];
      NearestOrNone(WaiterFloors(xs, e, i + 1), at)
        == if !AsksFor(x, e) then so else Closer(if so == NO_TARGET then x.from else so, x.from, at)
  {
    var seen := WaiterFloors(xs, e, i);
    NoNegativeFloors(xs, e, i);
    NearestOfOneMore(seen, xs[i].from, at);
    if seen != [] {
      NearestIsLeast(seen, at);
      assert Nearest(seen, at) >= 0;
    } else {
      assert NearestOrNone(seen, at) == NO_TARGET;
    }
    assert WaiterFloors(xs, e, i + 1) == if AsksFor(xs[i], e) then seen + [xs[i].from] else seen;
  }

  /** Leaving out one node leaves out its number. */
  lemma WithoutNode(ns: seq<PassengerInfo>, k: nat)
    requires k < |ns|
    requires DistinctIds(ns)
    ensures IdsOf(ns[..k] + ns[k + 1..]) == Without(IdsOf(ns), ns[k].id)
  {
    WithoutAt(IdsOf(ns), k);
    assert IdsOf(ns[..k] + ns[k + 1..]) == IdsOf(ns)[..k] + IdsOf(ns)[k + 1..];
  }

  class ElevatorInfo {
    var riding: PassengerInfo?
    var direction: int
    var waitAt: int

    /** The nodes of the list, in order. */
    ghost var riders: seq<PassengerInfo>

    /** `riders` is the list that starts at `riding`: it ends, and no node is on it twice. */
    ghost predicate Valid()
      reads `riding, `riders, riders`next
    {
      && (riding == null <==> riders == [])
      && (riders != [] ==> riding == riders[0] && riders[|riders| - 1].next == null)
      && (forall i | 0 <= i < |riders| - 1 :: riders[i].next == riders[i + 1])
      && (forall i, j | 0 <= i < j < |riders| :: riders[i] != riders[j])
    }

    /** The passenger numbers on the list. */
    ghost function Ids(): seq<nat>
      reads `riders
    {
      IdsOf(riders)
    }

    constructor ()
      ensures Valid() && Ids() == [] && direction == 1 && waitAt == NO_TARGET
    {
      riding := null;
      riders := [];
      direction := 1;
      waitAt := NO_TARGET;
    }

    /** Appends a passenger that is on no list. */
    method AddToList(passenger: PassengerInfo)
      requires Valid() && passenger !in riders && passenger.next == null
      modifies `riding, `riders, riders`next
      ensures Valid() && riders == old(riders) + [passenger]
      ensures Ids() == old(Ids()) + [passenger.id]
    {
      var p := riding;
      if p == null {
        riding := passenger;
      } else {
        ghost var k := 0;
        while p.next != null
          invariant 0 <= k < |riders| && p == riders[k]
          invariant p.next == if k + 1 < |riders| then riders[k + 1] else null
          decreases |riders| - k
        {
          p := p.next;
          k := k + 1;
        }
        p.next := passenger;
      }
      riders := riders + [passenger];
    }

    /** The numbers on the list tell its nodes apart. */
    ghost predicate Numbered()
      reads `riders
    {
      DistinctIds(riders)
    }

    /** Takes a passenger off, wherever on the list it is, and says what the code
        would do if the passenger is not on it. */
    method RemoveFromList(passenger: PassengerInfo) returns (r: Removal)
      requires Valid() && Numbered()
      modifies `riding, `riders, riders`next, passenger`next
      ensures Valid() && Numbered()
      ensures r == Removed <==> passenger in old(riders)
      ensures r == NullDereference <==> old(riders) == []
      ensures r != Removed ==> riders == old(riders) && passenger.next == old(passenger.next)
      ensures r == Removed ==> passenger.next == null && passenger !in riders
      ensures r == Removed ==> Ids() == Without(old(Ids()), passenger.id)
      ensures forall p | p in riders :: p in old(riders)
    {
      var prev: PassengerInfo?;
      ghost var k;
      r, prev, k := Locate(passenger);
      if r == Removed {
        LeavingOut(riders, k);
        WithoutNode(riders, k);
        Unlink(prev, passenger, k);
      }
    }

    /** The loop that looks for a passenger, and the node before it. */
    method Locate(passenger: PassengerInfo) returns (r: Removal, prev: PassengerInfo?, ghost k: nat)
      requires Valid()
      ensures r == Removed <==> passenger in riders
      ensures r == NullDereference <==> riders == []
      ensures r == Removed ==> k < |riders| && riders[k] == passenger && prev == Before(k)
    {
      var p := riding;
      prev := null;
      k := 0;
      if p == null {
        return NullDereference, prev, k;
      }
      while p != passenger
        invariant 0 <= k < |riders| && p == riders[k] && prev == Before(k)
        invariant p.next == if k + 1 < |riders| then riders[k + 1] else null
        invariant forall j | 0 <= j < k :: riders[j] != passenger
        decreases |riders| - k
      {
        prev := p;
        p := p.next;
        if p == null {
          assert k + 1 == |riders| && riders[k] != passenger;
          return AssertionFailed, prev, k;
        }
        k := k + 1;
      }
      r := Removed;
    }

    ghost function Before(k: nat): PassengerInfo?
      requires k <= |riders|
      reads `riders
    {
      if k == 0 then null else riders[k - 1]
    }

    /** Takes out the node at `k`. */
    method Unlink(prev: PassengerInfo?, passenger: PassengerInfo, ghost k: nat)
      requires Valid() && k < |riders| && riders[k] == passenger && prev == Before(k)
      modifies `riding, `riders, riders`next
      ensures Valid() && riders == old(riders)[..k] + old(riders)[k + 1..]
      ensures passenger.next == null
    {
      assert passenger.next == if k + 1 < |riders| then riders[k + 1] else null;
      if prev == null {
        riding := passenger.next;
      } else {
        prev.next := passenger.next;
      }
      passenger.next := null;
      riders := riders[..k] + riders[k + 1..];
    }

    /** The loop over the riding list: the nearest destination. */
    method NearestDestination(atFloor: int) returns (closest: int)
      requires Valid() && riders != []
      ensures closest == Nearest(Destinations(), atFloor)
    {
      var p := riding;
      closest := p.toFloor;
      ghost var k := 0;
      assert Destinations()[..1] == [closest];
      while p.next != null
        invariant 0 <= k < |riders| && p == riders[k]
        invariant p.next == if k + 1 < |riders| then riders[k + 1] else null
        invariant closest == Nearest(Destinations()[..k + 1], atFloor)
        decreases |riders| - k
      {
        p := p.next;
        k := k + 1;
        NearestOfOneMore(Destinations()[..k], p.toFloor, atFloor);
        assert Destinations()[..k + 1] == Destinations()[..k] + [p.toFloor];
        if Distance(p.toFloor, atFloor) < Distance(closest, atFloor) {
          closest := p.toFloor;
        }
      }
      assert Destinations()[..k + 1] == Destinations();
    }

    ghost function Destinations(): (floors: seq<int>)
      reads this, riders
      ensures |floors| == |riders|
    {
      seq(|riders|, i requires 0 <= i < |riders| reads this, riders => riders[i].toFloor)
    }

    /** The loop over all records: the nearest floor somebody waits at, or none. It
        also leaves the last such floor in `waitAt`. */
    method NearestWaiter(elevator: nat, atFloor: int, passengers: array<PassengerInfo>, ghost xs: seq<Passenger>)
      returns (closest: int)
      requires Records(passengers[..], xs)
      requires forall x | x in xs :: x.from >= 0
      modifies `waitAt
      ensures closest == NearestOrNone(WaiterFloors(xs, elevator, |xs|), atFloor)
      ensures passengers[..] == old(passengers[..])
    {
      closest := NO_TARGET;
      for i := 0 to passengers.Length
        invariant Records(passengers[..], xs)
        invariant closest == NearestOrNone(WaiterFloors(xs, elevator, i), atFloor)
      {
        var p := passengers[i];
        assert p == passengers[..][i];
        OneMoreRecord(xs, elevator, i, atFloor);
        if p.status == 0 && p.eleNumber == elevator {
          waitAt := p.fromFloor;
          if closest == NO_TARGET {
            closest := p.fromFloor;
          }
          if Distance(p.fromFloor, atFloor) < Distance(closest, atFloor) {
            closest := p.fromFloor;
          }
        }
      }
    }

    /** Choosing among the riders' destinations or, with nobody riding, the waiters. */
    method ChooseTarget(elevator: nat, atFloor: int, passengers: array<PassengerInfo>,
                        ghost c: Car, ghost xs: seq<Passenger>)
      requires Valid() && Records(passengers[..], xs) && c.riding == Ids()
      requires forall x | x in xs :: x.from >= 0
      requires forall i | 0 <= i < |riders| :: riders[i].id < |xs| && riders[i] == passengers[riders[i].id]
      modifies `waitAt
      ensures waitAt == NearestOrNone(Asked(c, xs, elevator), atFloor)
    {
      if riding != null {
        forall i | 0 <= i < |riders|
          ensures Destinations()[i] == RiderFloors(xs, Ids())[i]
        {
          assert passengers[..][riders[i].id] == riders[i];
        }
        assert Destinations() == RiderFloors(xs, Ids());
        var closest := NearestDestination(atFloor);
        waitAt := closest;
      } else {
        var closest := NearestWaiter(elevator, atFloor, passengers, xs);
        waitAt := closest;
      }
    }

    /** The planning part of a call: where to stop next and which way to move. `c`
        and `xs` are the car and the records as the transition system has them. */
    method Plan(cfg: Config, elevator: nat, atFloor: int, passengers: array<PassengerInfo>,
                ghost c: Car, ghost xs: seq<Passenger>)
      requires Valid() && Records(passengers[..], xs) && c.riding == Ids()
      requires c.at == atFloor && c.direction == direction
      requires forall x | x in xs :: x.from >= 0
      requires forall i | 0 <= i < |riders| :: riders[i].id < |xs| && riders[i] == passengers[riders[i].id]
      modifies `direction, `waitAt
      ensures waitAt == NearestOrNone(Asked(c, xs, elevator), atFloor)
      ensures direction == Steered(Turned(cfg, c), waitAt, atFloor)
    {
      TurnAtTheEnds(cfg.floors, atFloor);
      assert direction == Turned(cfg, c);
      ChooseTarget(elevator, atFloor, passengers, c, xs);
      Steer(atFloor);
    }

    /** The two tests at the start of a call. */
    method TurnAtTheEnds(floors: nat, atFloor: int)
      modifies `direction
      ensures direction == if atFloor == 0 then 1 else if atFloor == floors - 1 then -1 else old(direction)
    {
      if atFloor == floors - 1 {
        direction := -1;
      }
      if atFloor == 0 {
        direction := 1;
      }
    }

    /** The two corrections once the target is known. */
    method Steer(atFloor: int)
      modifies `direction
      ensures direction == Steered(old(direction), waitAt, atFloor)
    {
      if waitAt > atFloor && direction == -1 {
        direction := 1;
      }
      if waitAt != NO_TARGET && waitAt < atFloor && direction == 1 {
        direction := -1;
      }
    }
  }

  /** The direction after both corrections: towards the target, if there is one. */
  function Steered(direction: int, target: int, at: int): int {
    if target > at && direction == -1 then 1
    else if target != NO_TARGET && target < at && direction == 1 then -1
    else direction
  }

  lemma {:induction false} WithoutAt(ids: seq<nat>, k: nat)
    requires k < |ids| && forall j | 0 <= j < k :: ids[j] != ids[k]
    ensures Without(ids, ids[k]) == ids[..k] + ids[k + 1..]
  {
    if k > 0 {
      WithoutAt(ids[1..], k - 1);
      assert ids[1..][k..] == ids[k + 1..];
      assert [ids[0]] + ids[1..][..k - 1] == ids[..k];
    }
  }

  // ---------------------------------------------------------------- the same, turn by turn

  /** Planning turns of one elevator thread, one after the other. */
  function PlanRun(cfg: Config, e: nat, c: Car, xs: seq<Passenger>, turns: nat): Car
    decreases turns
  {
    if turns == 0 then c
    else match PlanStep(cfg, e, c, xs)
      case Go(next) => PlanRun(cfg, e, next, xs, turns - 1)
      case _ => c
  }

  /** The direction so far, for a call that began with car `was` at the gate. */
  predicate Heading(cfg: Config, was: Car, c: Car) {
    var turned := Turned(cfg, was);
    match c.pc
    case Gate => c.direction == was.direction && c.start >= 3
    case SteerDown => c.direction == if c.waitAt > c.at && turned == -1 then 1 else turned
    case Decide => c.direction == Steered(turned, c.waitAt, c.at)
    case _ => c.direction == turned
  }

  lemma PlanStepHeads(cfg: Config, e: nat, was: Car, c: Car, xs: seq<Passenger>)
    requires Planning(c.pc) && !c.pc.Decide? && c.at == was.at && Heading(cfg, was, c)
    requires forall r | r in c.riding :: r < |xs|
    ensures var r := PlanStep(cfg, e, c, xs);
      r.Go? && Planning(r.next.pc) && r.next.at == c.at && r.next.riding == c.riding && r.next.ready == c.ready
      && Heading(cfg, was, r.next)
  {
    assert forall i | 0 <= i < |c.riding| :: c.riding[i] in c.riding;
  }

  /** On records that stay as they are, the loops of a call, cut into the single turns of
      the transition system, choose the target and the direction that `Plan` chooses. */
  lemma {:induction false} PlanTurnByTurn(cfg: Config, e: nat, was: Car, c: Car, xs: seq<Passenger>)
    returns (turns: nat)
    requires Planning(c.pc) && c.at == was.at && Heading(cfg, was, c)
    requires (was.direction == 1 || was.direction == -1) && !c.ready
    requires IsFloor(cfg, c.at) && ListOk(e, c.riding, |xs|) && |c.riding| <= CAPACITY && OnCourse(c, e, xs)
    requires forall p | 0 <= p < |xs| :: PassengerOk(cfg, p, xs[p])
    ensures var d := PlanRun(cfg, e, c, xs, turns);
      && d.pc.Decide? && d.riding == c.riding
      && d.waitAt == NearestOrNone(Asked(c, xs, e), c.at)
      && d.direction == Steered(Turned(cfg, was), d.waitAt, d.at)
    decreases TurnsInCall(c, |xs|)
  {
    if c.pc.Decide? {
      turns := 0;
    } else {
      PlanStepHeads(cfg, e, was, c, xs);
      PlanStepShortens(cfg, e, c, xs);
      PlanKeepsCourse(cfg, c, e, xs);
      var next := PlanStep(cfg, e, c, xs).next;
      var rest := PlanTurnByTurn(cfg, e, was, next, xs);
      turns := rest + 1;
    }
  }
}
