/** The choice of the next floor: among the floors asked for, one of least
    distance from the floor the car is at, the first such in list order. */
module NearestTarget {

  /** What the array scan reports when nobody waits. */
  const NO_TARGET := -1

  function Distance(a: int, b: int): nat {
    if a < b then b - a else a - b
  }

  /** One comparison of either scan loop: a candidate wins only if strictly closer. */
  function Closer(best: int, candidate: int, at: int): int {
    if Distance(candidate, at) < Distance(best, at) then candidate else best
  }

  /** What both scan loops compute after looking at all of `floors`. */
  function Nearest(floors: seq<int>, at: int): int
    requires floors != []
  {
    var last := |floors| - 1;
    if last == 0 then floors[0] else Closer(Nearest(floors[..last], at), floors[last], at)
  }

  function NearestOrNone(floors: seq<int>, at: int): int {
    if floors == [] then NO_TARGET else Nearest(floors, at)
  }

  /** Looking at one more floor. */
  lemma NearestOfOneMore(seen: seq<int>, f: int, at: int)
    ensures NearestOrNone(seen + [f], at) == if seen == [] then f else Closer(Nearest(seen, at), f, at)
  {
    assert (seen + [f])[..|seen|] == seen;
  }

  /** `f` is the first floor of the list at least distance from `at`. */
  ghost predicate IsFirstNearest(f: int, floors: seq<int>, at: int) {
    exists k | 0 <= k < |floors| ::
      && floors[k] == f
      && (forall j | 0 <= j < |floors| :: Distance(f, at) <= Distance(floors[j], at))
      && (forall j | 0 <= j < k :: Distance(f, at) < Distance(floors[j], at))
  }

  lemma {:induction false} NearestIsFirstNearest(floors: seq<int>, at: int)
    requires floors != []
    ensures IsFirstNearest(Nearest(floors, at), floors, at)
  {
    var last := |floors| - 1;
    if last == 0 {
      assert floors[0] == Nearest(floors, at);
    } else {
      var front := floors[..last];
      NearestIsFirstNearest(front, at);
      var best := Nearest(front, at);
      var k :| 0 <= k < |front| && front[k] == best
        && (forall j | 0 <= j < |front| :: Distance(best, at) <= Distance(front[j], at))
        && (forall j | 0 <= j < k :: Distance(best, at) < Distance(front[j], at));
      assert forall j | 0 <= j < last :: floors[j] == front[j];
      if Distance(floors[last], at) < Distance(best, at) {
        assert floors[last] == Nearest(floors, at);
      } else {
        assert floors[k] == Nearest(floors, at);
      }
    }
  }

  lemma NearestIsLeast(floors: seq<int>, at: int)
    requires floors != []
    ensures Nearest(floors, at) in floors
    ensures forall f | f in floors :: Distance(Nearest(floors, at), at) <= Distance(f, at)
  {
    NearestIsFirstNearest(floors, at);
  }

  /** One step towards the nearest floor brings the distance to the nearest
      floor, chosen afresh, down by exactly one. */
  lemma Approach(floors: seq<int>, at: int, next: int)
    requires floors != []
    requires Nearest(floors, at) != at
    requires next == if Nearest(floors, at) > at then at + 1 else at - 1
    ensures Distance(Nearest(floors, next), next) + 1 == Distance(Nearest(floors, at), at)
  {
    NearestIsLeast(floors, at);
    NearestIsLeast(floors, next);
  }
}
