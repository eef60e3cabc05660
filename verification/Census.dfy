/** Head counts of a car's passengers by where their threads stand, and the few
    facts about such counts that the elevator proofs rest on. */
module Census {
  import opened Elevator

  /** What is counted. `Holding`: between taking the token and handing it back.
      `Booked`: from taking the token for entry until the referee sees the exit.
      `Aboard`, `Counted`, `Listed`: included in the referee's count, the
      scheduler's count and the riding list. `Owed`: entries and exits registered
      passengers still have to start. `Ahead`: statements before the thread ends. */
  datatype Kind = Holding | Booked | Aboard | Counted | Listed | Owed | Ahead

  predicate Is(kind: Kind, pc: PassengerPc) {
    match kind
    case Holding => Entering(pc) || Leaving(pc)
    case Booked => Entering(pc) || pc.AwaitExit? || BeforeExit(pc)
    case Aboard => AfterEntry(pc) || pc.AwaitExit? || BeforeExit(pc)
    case Counted => pc.Link? || pc.PublishEntry? || pc.AwaitExit? || BeforeExit(pc) || pc.CountOut?
    case Listed => pc.PublishEntry? || pc.AwaitExit? || BeforeExit(pc) || pc.CountOut? || pc.Unlink?
    case Owed => pc.AwaitEntry? || Entering(pc) || pc.AwaitExit?
    case Ahead => !pc.Finished?
  }

  /** Statements a registered passenger has ahead on its last trip. */
  function StatementsAhead(pc: PassengerPc): nat {
    match pc
    case AwaitEntry => 18
    case EntryCheck1 => 17 case EntryCheck2 => 16 case EntryAct => 15
    case MarkRiding => 14 case CountIn => 13 case Link => 12 case PublishEntry => 11
    case AwaitExit => 10
    case ExitCheck1 => 9 case ExitCheck2 => 8 case ExitAct => 7
    case CountOut => 6 case Unlink => 5 case PublishExit => 4
    case CheckArrival => 3 case MoveOrigin => 2
    case Finished => 0
    case _ => 1
  }

  function Weight(kind: Kind, pc: PassengerPc): nat {
    if kind.Ahead? then StatementsAhead(pc)
    else if kind.Owed? && pc.AwaitEntry? then 2
    else if Is(kind, pc) then 1 else 0
  }

  function Share(kind: Kind, xs: seq<Passenger>, e: nat, p: nat): nat
    requires p < |xs|
  {
    if CarOf(p) == e then Weight(kind, xs[p].pc) else 0
  }

  /** The count over the passengers of car `e` among the first `m`. */
  function Sum(kind: Kind, xs: seq<Passenger>, e: nat, m: nat): nat
    requires m <= |xs|
  {
    if m == 0 then 0 else Sum(kind, xs, e, m - 1) + Share(kind, xs, e, m - 1)
  }

  function Total(kind: Kind, xs: seq<Passenger>, e: nat): nat {
    Sum(kind, xs, e, |xs|)
  }

  /** When one passenger moves on, each count moves by that passenger's share. */
  lemma {:induction false} SumAfterUpdate(kind: Kind, xs: seq<Passenger>, e: nat, m: nat, p: nat, x: Passenger)
    requires m <= |xs| && p < |xs|
    ensures Sum(kind, xs[p := x], e, m)
         == Sum(kind, xs, e, m)
            + (if p < m && CarOf(p) == e then Weight(kind, x.pc) - Weight(kind, xs[p].pc) else 0)
  {
    if m == 0 {
    } else {
      SumAfterUpdate(kind, xs, e, m - 1, p, x);
    }
  }

  lemma {:induction false} ShareAtMostSum(kind: Kind, xs: seq<Passenger>, e: nat, m: nat, p: nat)
    requires p < m <= |xs|
    ensures Share(kind, xs, e, p) <= Sum(kind, xs, e, m)
  {
    if p < m - 1 {
      ShareAtMostSum(kind, xs, e, m - 1, p);
    }
  }

  lemma {:induction false} TwoSharesAtMostSum(kind: Kind, xs: seq<Passenger>, e: nat, m: nat, p: nat, q: nat)
    requires p < q < m <= |xs|
    ensures Share(kind, xs, e, p) + Share(kind, xs, e, q) <= Sum(kind, xs, e, m)
  {
    if q == m - 1 {
      ShareAtMostSum(kind, xs, e, m - 1, p);
    } else {
      TwoSharesAtMostSum(kind, xs, e, m - 1, p, q);
    }
  }

  /** Of all passengers of a car, at most one holds the token when the count is at most one. */
  lemma OneHolder(xs: seq<Passenger>, e: nat, p: nat, q: nat)
    requires Total(Holding, xs, e) <= 1
    requires p < |xs| && q < |xs| && CarOf(p) == CarOf(q) == e
    requires Is(Holding, xs[p].pc) && Is(Holding, xs[q].pc)
    ensures p == q
  {
    if p < q {
      TwoSharesAtMostSum(Holding, xs, e, |xs|, p, q);
    } else if q < p {
      TwoSharesAtMostSum(Holding, xs, e, |xs|, q, p);
    }
  }

  lemma NobodyHolds(xs: seq<Passenger>, e: nat, p: nat)
    requires Total(Holding, xs, e) == 0
    requires p < |xs| && CarOf(p) == e
    ensures !Is(Holding, xs[p].pc)
  {
    ShareAtMostSum(Holding, xs, e, |xs|, p);
  }

  /** Where nobody counts the count is zero. */
  lemma {:induction false} NobodyCounts(kind: Kind, xs: seq<Passenger>, e: nat, m: nat)
    requires m <= |xs|
    requires forall p | 0 <= p < m :: Share(kind, xs, e, p) == 0
    ensures Sum(kind, xs, e, m) == 0
  {
    if m > 0 {
      NobodyCounts(kind, xs, e, m - 1);
    }
  }

  /** Counts compare as their members do. */
  lemma {:induction false} SumMonotone(lo: Kind, hi: Kind, xs: seq<Passenger>, e: nat, m: nat)
    requires m <= |xs|
    requires forall p | 0 <= p < m :: Share(lo, xs, e, p) <= Share(hi, xs, e, p)
    ensures Sum(lo, xs, e, m) <= Sum(hi, xs, e, m)
  {
    if m > 0 {
      SumMonotone(lo, hi, xs, e, m - 1);
    }
  }

  lemma {:induction false} SumStrictlyMonotone(lo: Kind, hi: Kind, xs: seq<Passenger>, e: nat, m: nat, at: nat)
    requires at < m <= |xs|
    requires forall p | 0 <= p < m :: Share(lo, xs, e, p) <= Share(hi, xs, e, p)
    requires Share(lo, xs, e, at) < Share(hi, xs, e, at)
    ensures Sum(lo, xs, e, m) < Sum(hi, xs, e, m)
  {
    if at == m - 1 {
      SumMonotone(lo, hi, xs, e, m - 1);
    } else {
      SumStrictlyMonotone(lo, hi, xs, e, m - 1, at);
    }
  }

  /** While nobody holds the token, all four ways of counting riders agree. */
  lemma RiderCountsAgree(xs: seq<Passenger>, e: nat)
    requires Total(Holding, xs, e) == 0
    ensures Total(Booked, xs, e) == Total(Aboard, xs, e) == Total(Counted, xs, e) == Total(Listed, xs, e)
  {
    forall p | 0 <= p < |xs|
      ensures Share(Booked, xs, e, p) == Share(Aboard, xs, e, p) == Share(Counted, xs, e, p) == Share(Listed, xs, e, p)
    {
      if CarOf(p) == e {
        NobodyHolds(xs, e, p);
      }
    }
    SumMonotone(Booked, Aboard, xs, e, |xs|);
    SumMonotone(Aboard, Booked, xs, e, |xs|);
    SumMonotone(Aboard, Counted, xs, e, |xs|);
    SumMonotone(Counted, Aboard, xs, e, |xs|);
    SumMonotone(Aboard, Listed, xs, e, |xs|);
    SumMonotone(Listed, Aboard, xs, e, |xs|);
  }

  // ---------------------------------------------------------------- all counts of a car together

  datatype Tally = Tally(holding: int, booked: int, aboard: int, counted: int, listed: int)

  function TallyOf(xs: seq<Passenger>, e: nat): Tally {
    Tally(Total(Holding, xs, e), Total(Booked, xs, e), Total(Aboard, xs, e),
          Total(Counted, xs, e), Total(Listed, xs, e))
  }

  function Change(kind: Kind, was: PassengerPc, now: PassengerPc): int {
    Weight(kind, now) - Weight(kind, was)
  }

  /** The tally after one passenger of the car moves from `was` to `now`. */
  function Shifted(t: Tally, was: PassengerPc, now: PassengerPc): Tally {
    Tally(t.holding + Change(Holding, was, now), t.booked + Change(Booked, was, now),
          t.aboard + Change(Aboard, was, now), t.counted + Change(Counted, was, now),
          t.listed + Change(Listed, was, now))
  }

  lemma TallyAfterUpdate(xs: seq<Passenger>, p: nat, x: Passenger, e: nat)
    requires p < |xs|
    ensures TallyOf(xs[p := x], e)
         == if CarOf(p) == e then Shifted(TallyOf(xs, e), xs[p].pc, x.pc) else TallyOf(xs, e)
  {
    SumAfterUpdate(Holding, xs, e, |xs|, p, x);
    SumAfterUpdate(Booked, xs, e, |xs|, p, x);
    SumAfterUpdate(Aboard, xs, e, |xs|, p, x);
    SumAfterUpdate(Counted, xs, e, |xs|, p, x);
    SumAfterUpdate(Listed, xs, e, |xs|, p, x);
  }

  /** What a tally says whoever is in it. */
  predicate Consistent(t: Tally) {
    && t.holding >= 0 && 0 <= t.aboard <= t.booked
    && (t.holding == 0 ==> t.booked == t.aboard == t.counted == t.listed)
  }

  /** What a tally says of one of its members. */
  predicate Counts(t: Tally, pc: PassengerPc) {
    && (Is(Holding, pc) ==> t.holding >= 1)
    && (BeforeEntry(pc) ==> t.aboard < t.booked)
  }

  lemma TallyConsistent(xs: seq<Passenger>, e: nat)
    ensures Consistent(TallyOf(xs, e))
  {
    if Total(Holding, xs, e) == 0 {
      RiderCountsAgree(xs, e);
    }
    assert forall p | 0 <= p < |xs| :: Share(Aboard, xs, e, p) <= Share(Booked, xs, e, p);
    SumMonotone(Aboard, Booked, xs, e, |xs|);
  }

  lemma TallyCounts(xs: seq<Passenger>, p: nat)
    requires p < |xs|
    ensures Counts(TallyOf(xs, CarOf(p)), xs[p].pc)
  {
    var e := CarOf(p);
    ShareAtMostSum(Holding, xs, e, |xs|, p);
    if BeforeEntry(xs[p].pc) {
      assert forall q | 0 <= q < |xs| :: Share(Aboard, xs, e, q) <= Share(Booked, xs, e, q);
      SumStrictlyMonotone(Aboard, Booked, xs, e, |xs|, p);
    }
  }
}
