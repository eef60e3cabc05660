/** A process's file-descriptor table and the system calls the shell makes on it.
    The table is unbounded; allocation takes the lowest free slot. */
module Descriptors {

  /** What a descriptor refers to. Pipes are numbered in the order they are made. */
  datatype Target =
    | Given(id: nat)
    | ReadEnd(pipe: nat)
    | WriteEnd(pipe: nat)
    | File(name: string)
    | Output(line: nat)
    | Errors(line: nat)
    | NullDevice

  datatype Slot = Free | Open(target: Target)

  type Table = seq<Slot>

  predicate IsOpen(t: Table, fd: nat) {
    fd < |t| && t[fd].Open?
  }

  function Lookup(t: Table, fd: nat): Slot {
    if fd < |t| then t[fd] else Free
  }

  /** The lowest free descriptor. */
  function LowestFree(t: Table): (fd: nat)
    ensures fd <= |t| && !IsOpen(t, fd)
    ensures forall i | 0 <= i < fd :: IsOpen(t, i)
  {
    if t == [] || t[0].Free? then 0
    else
      var rest := LowestFree(t[1..]);
      assert forall i | 0 < i < rest + 1 :: IsOpen(t[1..], i - 1) ==> IsOpen(t, i);
      rest + 1
  }

  /** Makes `fd`, which may be one past the table, refer to `target`. */
  function Assign(t: Table, fd: nat, target: Target): (r: Table)
    requires fd <= |t|
    ensures |r| >= |t|
  {
    if fd < |t| then t[fd := Open(target)] else t + [Open(target)]
  }

  /** The table after a call that opens something new; its number is `LowestFree(t)`. */
  function Allocate(t: Table, target: Target): (r: Table)
    ensures |r| >= |t|
  {
    Assign(t, LowestFree(t), target)
  }

  /** dup: a second descriptor for the same target, if there is a first. */
  function Dup(t: Table, fd: nat): (r: Table)
    ensures |r| >= |t|
  {
    if IsOpen(t, fd) then Allocate(t, t[fd].target) else t
  }

  /** What dup returns. */
  function DupNumber(t: Table, fd: nat): int {
    if IsOpen(t, fd) then LowestFree(t) else -1
  }

  function Close(t: Table, fd: nat): (r: Table)
    ensures |r| == |t|
  {
    if fd < |t| then t[fd := Free] else t
  }

  /** dup2 of an open descriptor; of a closed one, or of the -1 that a failed call
      returned, it fails and changes nothing. */
  function Dup2(t: Table, from: int, to: nat): (r: Table)
    requires to <= |t|
    ensures |r| >= |t|
  {
    if 0 <= from && IsOpen(t, from) then Assign(t, to, t[from].target) else t
  }

  /** How many descriptors are open. */
  function OpenCount(t: Table): nat {
    if t == [] then 0 else OpenCount(t[1..]) + (if t[0].Open? then 1 else 0)
  }

  lemma {:induction false} OpenCountUpdate(t: Table, fd: nat, slot: Slot)
    requires fd < |t|
    ensures OpenCount(t[fd := slot])
         == OpenCount(t) + (if slot.Open? then 1 else 0) - (if t[fd].Open? then 1 else 0)
  {
    if fd == 0 {
      assert t[fd := slot][1..] == t[1..];
    } else {
      assert t[fd := slot][1..] == t[1..][fd - 1 := slot];
      OpenCountUpdate(t[1..], fd - 1, slot);
    }
  }

  lemma {:induction false} OpenCountAppend(t: Table, slot: Slot)
    ensures OpenCount(t + [slot]) == OpenCount(t) + (if slot.Open? then 1 else 0)
  {
    if t == [] {
      assert (t + [slot])[1..] == [];
    } else {
      assert (t + [slot])[1..] == t[1..] + [slot];
      OpenCountAppend(t[1..], slot);
    }
  }

  lemma AllocateCounts(t: Table, target: Target)
    ensures OpenCount(Allocate(t, target)) == OpenCount(t) + 1
    ensures Lookup(Allocate(t, target), LowestFree(t)) == Open(target)
    ensures forall fd: nat | fd != LowestFree(t) :: Lookup(Allocate(t, target), fd) == Lookup(t, fd)
  {
    var fd := LowestFree(t);
    if fd < |t| {
      OpenCountUpdate(t, fd, Open(target));
    } else {
      OpenCountAppend(t, Open(target));
    }
  }

  lemma CloseCounts(t: Table, fd: nat)
    ensures OpenCount(Close(t, fd)) == OpenCount(t) - (if IsOpen(t, fd) then 1 else 0)
    ensures Lookup(Close(t, fd), fd) == Free
    ensures forall other: nat | other != fd :: Lookup(Close(t, fd), other) == Lookup(t, other)
  {
    if fd < |t| {
      OpenCountUpdate(t, fd, Free);
    }
  }

  lemma Dup2Counts(t: Table, from: nat, to: nat)
    requires IsOpen(t, from) && IsOpen(t, to)
    ensures OpenCount(Dup2(t, from, to)) == OpenCount(t)
    ensures Lookup(Dup2(t, from, to), to) == t[from]
    ensures forall other: nat | other != to :: Lookup(Dup2(t, from, to), other) == Lookup(t, other)
  {
    OpenCountUpdate(t, to, Open(t[from].target));
  }
}
