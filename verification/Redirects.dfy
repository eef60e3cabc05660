/** What the shell's child does with a command before it calls execve: the words, and
    the redirections among them. */
module Redirects {
  import opened Descriptors
  import opened Shell
  import opened ShellText

  // ---------------------------------------------------------------- words

  /** Like strtok with a blank: the words between blanks, never an empty one. */
  function Words(command: string): (words: seq<string>)
    ensures forall k | 0 <= k < |words| :: words[k] != "" && NoneBefore(words[k], ' ', |words[k]|)
    decreases |command|
  {
    if command == "" then []
    else if command[0] == ' ' then Words(command[1..])
    else
      var i := Find(command, ' ');
      FoundFirst(command, ' ');
      if i == |command| then [command] else [command[..i]] + Words(command[i + 1..])
  }

  function ShowWords(words: seq<string>): string {
    if words == [] then "" else if |words| == 1 then words[0] else words[0] + " " + ShowWords(words[1..])
  }

  lemma {:induction false} WordsOfShown(words: seq<string>)
    requires forall k | 0 <= k < |words| :: words[k] != "" && NoneBefore(words[k], ' ', |words[k]|)
    ensures Words(ShowWords(words)) == words
  {
    if |words| == 1 {
      assert words[0][0] in words[0];
      assert words == [words[0]];
    } else if |words| > 1 {
      var shown, first := ShowWords(words), words[0];
      assert first[0] in first && shown[0] == first[0];
      assert shown[..|first|] == first;
      FoundAt(shown, ' ', |first|);
      assert shown[|first| + 1..] == ShowWords(words[1..]);
      WordsOfShown(words[1..]);
      assert words == [first] + words[1..];
    }
  }

  /** A blank only separates: what stands before it and after it is read on its own, so a
      leading, doubled or trailing one makes no difference. */
  lemma {:induction false} WordsAround(first: string, second: string)
    ensures Words(first + " " + second) == Words(first) + Words(second)
    decreases |first|
  {
    var all := first + " " + second;
    if first == "" {
      assert all[1..] == second;
    } else if first[0] == ' ' {
      assert all[1..] == first[1..] + " " + second;
      WordsAround(first[1..], second);
    } else {
      var i := Find(first, ' ');
      FoundFirst(first, ' ');
      FoundAt(all, ' ', i);
      assert all[..i] == first[..i];
      if i == |first| {
        assert all[i + 1..] == second && first[..i] == first;
      } else {
        assert all[i + 1..] == first[i + 1..] + " " + second;
        WordsAround(first[i + 1..], second);
      }
    }
  }

  // ---------------------------------------------------------------- redirections

  /** Which descriptor an operator redirects; 3 stands for a word that is no operator. */
  function Redirected(word: string): nat {
    if word == "<" then 0 else if word == ">" then 1 else if word == "2>" then 2 else 3
  }

  /** Word `j` is an operator, not the program itself, and the file after it opens. */
  predicate Applies(words: seq<string>, openable: set<string>, j: nat) {
    && 1 <= j && j + 1 < |words| && Redirected(words[j]) < 3 && words[j + 1] in openable
  }

  /** `op` stands at `j`, not as the program itself, and the file after it opens. */
  predicate OpensAt(words: seq<string>, openable: set<string>, op: string, j: nat) {
    1 <= j && j + 1 < |words| && words[j] == op && words[j + 1] in openable
  }

  /** Where `op` last does so before `end`; 0 if nowhere. */
  function LastOf(words: seq<string>, openable: set<string>, op: string, end: nat): (j: nat)
    ensures j != 0 ==> j < end && OpensAt(words, openable, op, j)
  {
    if end == 0 then 0
    else if OpensAt(words, openable, op, end - 1) then end - 1
    else LastOf(words, openable, op, end - 1)
  }

  /** It is the last place. */
  lemma {:induction false} LastOfIs(words: seq<string>, openable: set<string>, op: string, end: nat)
    ensures forall k | LastOf(words, openable, op, end) < k < end :: !OpensAt(words, openable, op, k)
  {
    if end > 0 && !OpensAt(words, openable, op, end - 1) {
      LastOfIs(words, openable, op, end - 1);
    }
  }

  /** The words before the first of the operators that apply. */
  function Arguments(words: seq<string>, openable: set<string>, j: nat): (arguments: seq<string>)
    requires j <= |words|
    ensures arguments <= words && |arguments| >= j
    decreases |words| - j
  {
    if j == |words| || Applies(words, openable, j) then words[..j] else Arguments(words, openable, j + 1)
  }

  /** `u` is `t` with descriptors 0, 1 and 2 redirected as the first `end` words say. */
  ghost predicate IsRedirected(t: Table, words: seq<string>, openable: set<string>, end: nat, u: Table) {
    && OpenCount(u) == OpenCount(t)
    && (forall fd: nat | fd >= 3 :: Lookup(u, fd) == Lookup(t, fd))
    && Lookup(u, 0) == RedirectedSlot(Lookup(t, 0), words, openable, "<", end)
    && Lookup(u, 1) == RedirectedSlot(Lookup(t, 1), words, openable, ">", end)
    && Lookup(u, 2) == RedirectedSlot(Lookup(t, 2), words, openable, "2>", end)
  }

  /** The file after the last `op` before `end`, or else what there was. */
  function RedirectedSlot(was: Slot, words: seq<string>, openable: set<string>, op: string, end: nat): Slot {
    var j := LastOf(words, openable, op, end);
    if j == 0 then was else Open(File(words[j + 1]))
  }

  lemma SlotIs(was: Slot, words: seq<string>, openable: set<string>, op: string, j: nat)
    requires OpensAt(words, openable, op, j) && forall k | j < k < |words| :: !OpensAt(words, openable, op, k)
    ensures RedirectedSlot(was, words, openable, op, |words|) == Open(File(words[j + 1]))
  {
    LastOfIs(words, openable, op, |words|);
  }

  lemma SlotStays(was: Slot, words: seq<string>, openable: set<string>, op: string)
    requires forall k | 0 <= k < |words| :: !OpensAt(words, openable, op, k)
    ensures RedirectedSlot(was, words, openable, op, |words|) == was
  {
  }

  /** What descriptor `d`, which `op` redirects, is after the words: the file behind the
      last `op` that has one to open, and without such a place what it was. */
  ghost predicate GoesTo(t: Table, words: seq<string>, openable: set<string>, op: string, d: nat, u: Table) {
    && (forall j: nat | OpensAt(words, openable, op, j)
                        && (forall k | j < k < |words| :: !OpensAt(words, openable, op, k)) ::
          Lookup(u, d) == Open(File(words[j + 1])))
    && ((forall k | 0 <= k < |words| :: !OpensAt(words, openable, op, k)) ==> Lookup(u, d) == Lookup(t, d))
  }

  lemma SlotGoesTo(t: Table, words: seq<string>, openable: set<string>, op: string, d: nat, u: Table)
    requires Lookup(u, d) == RedirectedSlot(Lookup(t, d), words, openable, op, |words|)
    ensures GoesTo(t, words, openable, op, d, u)
  {
    forall j: nat | OpensAt(words, openable, op, j) && (forall k | j < k < |words| :: !OpensAt(words, openable, op, k))
      ensures Lookup(u, d) == Open(File(words[j + 1]))
    {
      SlotIs(Lookup(t, d), words, openable, op, j);
    }
    if forall k | 0 <= k < |words| :: !OpensAt(words, openable, op, k) {
      SlotStays(Lookup(t, d), words, openable, op);
    }
  }

  /** `<` redirects the input, `>` the output and `2>` the errors, each to the file behind
      its last occurrence that could be opened, whatever the others do. */
  lemma OperatorsRedirect(t: Table, words: seq<string>, openable: set<string>, u: Table)
    requires IsRedirected(t, words, openable, |words|, u)
    ensures GoesTo(t, words, openable, "<", 0, u)
    ensures GoesTo(t, words, openable, ">", 1, u)
    ensures GoesTo(t, words, openable, "2>", 2, u)
  {
    SlotGoesTo(t, words, openable, "<", 0, u);
    SlotGoesTo(t, words, openable, ">", 1, u);
    SlotGoesTo(t, words, openable, "2>", 2, u);
  }

  datatype Argument = Null | Word(text: string)

  /** The place for the arguments: the words, with NULL after them and for each operator
      that has been carried out. */
  ghost predicate HoldsWords(places: seq<Argument>, words: seq<string>, openable: set<string>, end: nat) {
    && |words| < |places| && places[|words|] == Null
    && forall j | 0 <= j < |words| ::
         places[j] == if j < end && Applies(words, openable, j) then Null else Word(words[j])
  }

  /** What execve takes for the arguments: everything before the first NULL. */
  function UpToNull(places: seq<Argument>): seq<string> {
    if places == [] || places[0].Null? then [] else [places[0].text] + UpToNull(places[1..])
  }

  lemma {:induction false} UpToNullIs(places: seq<Argument>, words: seq<string>)
    requires |words| < |places| && places[|words|].Null?
    requires forall j | 0 <= j < |words| :: places[j] == Word(words[j])
    ensures UpToNull(places) == words
  {
    if words != [] {
      UpToNullIs(places[1..], words[1..]);
    }
  }

  lemma {:induction false} ArgumentsEnd(words: seq<string>, openable: set<string>, j: nat)
    requires j <= |words|
    ensures var n := |Arguments(words, openable, j)|;
      && (n < |words| ==> Applies(words, openable, n))
      && (forall k | j <= k < n :: !Applies(words, openable, k))
    decreases |words| - j
  {
    if j < |words| && !Applies(words, openable, j) {
      ArgumentsEnd(words, openable, j + 1);
    }
  }

  /** The program gets the words before the first operator that has a file to open, its own
      name included. */
  lemma ArgumentsAre(words: seq<string>, openable: set<string>)
    requires words != []
    ensures var n := |Arguments(words, openable, 1)|;
      && Arguments(words, openable, 1) == words[..n]
      && (forall k | 0 <= k < n ::
            && !OpensAt(words, openable, "<", k) && !OpensAt(words, openable, ">", k)
            && !OpensAt(words, openable, "2>", k))
      && (n < |words| ==>
            OpensAt(words, openable, "<", n) || OpensAt(words, openable, ">", n) || OpensAt(words, openable, "2>", n))
  {
    ArgumentsEnd(words, openable, 1);
    forall k | 0 <= k < |Arguments(words, openable, 1)|
      ensures !OpensAt(words, openable, "<", k) && !OpensAt(words, openable, ">", k)
      ensures !OpensAt(words, openable, "2>", k)
    {
      assert k == 0 || !Applies(words, openable, k);
    }
  }

  /** open, dup2 and close for one operator. */
  lemma OneRedirection(t: Table, words: seq<string>, openable: set<string>, j: nat, u: Table)
    requires Standard(u) && Standard(t) && IsRedirected(t, words, openable, j, u) && Applies(words, openable, j)
    ensures var fd, d := LowestFree(u), Redirected(words[j]);
      var v := Close(Dup2(Allocate(u, File(words[j + 1])), fd, d), fd);
      Standard(v) && IsRedirected(t, words, openable, j + 1, v)
  {
    var fd, d := LowestFree(u), Redirected(words[j]);
    var afterOpen := Allocate(u, File(words[j + 1]));
    AllocateCounts(u, File(words[j + 1]));
    assert IsOpen(u, d) && fd >= 3;
    assert Lookup(afterOpen, d) == Lookup(u, d) && Lookup(afterOpen, fd) == Open(File(words[j + 1]));
    Dup2Counts(afterOpen, fd, d);
    var redirected := Dup2(afterOpen, fd, d);
    CloseCounts(redirected, fd);
    var v := Close(redirected, fd);
    forall e: nat | e < 3
      ensures Lookup(v, e) == (if e == d then Open(File(words[j + 1])) else Lookup(u, e)) && Lookup(v, e).Open?
    {
      assert Lookup(redirected, e) == if e == d then Open(File(words[j + 1])) else Lookup(u, e);
      assert IsOpen(u, e);
    }
    assert Lookup(v, 0).Open? && Lookup(v, 1).Open? && Lookup(v, 2).Open?;
    SlotStep(Lookup(t, 0), words, openable, "<", j);
    SlotStep(Lookup(t, 1), words, openable, ">", j);
    SlotStep(Lookup(t, 2), words, openable, "2>", j);
  }

  lemma SlotStep(was: Slot, words: seq<string>, openable: set<string>, op: string, j: nat)
    ensures RedirectedSlot(was, words, openable, op, j + 1)
         == if OpensAt(words, openable, op, j) && j != 0 then Open(File(words[j + 1]))
            else RedirectedSlot(was, words, openable, op, j)
  {
  }

  lemma NoRedirection(t: Table, words: seq<string>, openable: set<string>, j: nat, u: Table)
    requires IsRedirected(t, words, openable, j, u) && !Applies(words, openable, j)
    ensures IsRedirected(t, words, openable, j + 1, u)
  {
    SlotStep(Lookup(t, 0), words, openable, "<", j);
    SlotStep(Lookup(t, 1), words, openable, ">", j);
    SlotStep(Lookup(t, 2), words, openable, "2>", j);
  }

  lemma PlacesStep(places: seq<Argument>, words: seq<string>, openable: set<string>, j: nat)
    requires HoldsWords(places, words, openable, j) && 1 <= j < |words|
    ensures places[j] == Word(words[j])
    ensures j + 1 < |words| ==> places[j + 1] == Word(words[j + 1])
    ensures HoldsWords(if Applies(words, openable, j) then places[j := Null] else places, words, openable, j + 1)
  {
  }

  lemma PlacesEnd(places: seq<Argument>, words: seq<string>, openable: set<string>)
    requires words != [] && HoldsWords(places, words, openable, |words|)
    ensures UpToNull(places) == Arguments(words, openable, 1)
  {
    ArgumentsEnd(words, openable, 1);
    UpToNullIs(places, Arguments(words, openable, 1));
  }

  /** open, dup2 and close. */
  method Redirect(t: Table, d: nat, name: string) returns (u: Table)
    requires d < 3 && Standard(t)
    ensures u == Close(Dup2(Allocate(t, File(name)), LowestFree(t), d), LowestFree(t))
  {
    var fd := LowestFree(t);
    u := Allocate(t, File(name));
    u := Dup2(u, fd, d);
    u := Close(u, fd);
  }

  /** Where the redirection loop is after the words before `j`. */
  ghost predicate LoopState(places: seq<Argument>, words: seq<string>, openable: set<string>, j: nat,
                            t: Table, u: Table)
  {
    && HoldsWords(places, words, openable, j)
    && Standard(t) && Standard(u) && IsRedirected(t, words, openable, j, u)
  }

  lemma LoopStep(places: seq<Argument>, words: seq<string>, openable: set<string>, j: nat, t: Table, u: Table)
    requires LoopState(places, words, openable, j, t, u) && 1 <= j < |words|
    ensures |words| < |places| && places[j] == Word(words[j])
    ensures places[j + 1] == (if j + 1 < |words| then Word(words[j + 1]) else Null)
    ensures Applies(words, openable, j) ==>
              var fd, d := LowestFree(u), Redirected(words[j]);
              && d <= |u|
              && LoopState(places[j := Null], words, openable, j + 1, t,
                           Close(Dup2(Allocate(u, File(words[j + 1])), fd, d), fd))
    ensures !Applies(words, openable, j) ==> LoopState(places, words, openable, j + 1, t, u)
  {
    PlacesStep(places, words, openable, j);
    if Applies(words, openable, j) {
      OneRedirection(t, words, openable, j, u);
    } else {
      NoRedirection(t, words, openable, j, u);
    }
  }

  lemma LoopEnd(places: seq<Argument>, words: seq<string>, openable: set<string>, t: Table, u: Table)
    requires words != [] && LoopState(places, words, openable, |words|, t, u)
    ensures IsRedirected(t, words, openable, |words|, u)
    ensures UpToNull(places) == Arguments(words, openable, 1)
  {
    PlacesEnd(places, words, openable);
  }

  lemma LoopStart(places: seq<Argument>, words: seq<string>, openable: set<string>, t: Table)
    requires HoldsWords(places, words, {}, 0) && Standard(t)
    ensures LoopState(places, words, openable, 1, t, t)
  {
  }

  /** The redirection loop, on the places of the words and NULL after them. */
  method ApplyRedirections(args: array<Argument>, words: seq<string>, openable: set<string>, t: Table)
    returns (u: Table)
    requires 0 < |words| < args.Length && HoldsWords(args[..], words, {}, 0)
    requires Standard(t)
    modifies args
    ensures IsRedirected(t, words, openable, |words|, u)
    ensures UpToNull(args[..]) == Arguments(words, openable, 1)
  {
    u := t;
    var j := 1;
    LoopStart(args[..], words, openable, t);
    while j < |words|
      invariant 1 <= j <= |words| && LoopState(args[..], words, openable, j, t, u)
    {
      u := RedirectAt(args, words, openable, j, t, u);
      j := j + 1;
    }
    LoopEnd(args[..], words, openable, t, u);
  }

  /** One turn of the loop. */
  method RedirectAt(args: array<Argument>, ghost words: seq<string>, openable: set<string>, j: nat,
                    ghost t: Table, u: Table)
    returns (v: Table)
    requires 1 <= j < |words| < args.Length && LoopState(args[..], words, openable, j, t, u)
    modifies args
    ensures LoopState(args[..], words, openable, j + 1, t, v)
  {
    LoopStep(args[..], words, openable, j, t, u);
    ghost var places := args[..];
    assert args[j] == places[j] && args[j + 1] == places[j + 1];
    var d := Redirected(args[j].text);
    v := u;
    if d < 3 && args[j + 1].Word? && args[j + 1].text in openable {
      assert Applies(words, openable, j);
      v := Redirect(u, d, args[j + 1].text);
      args[j] := Null;
      assert args[..] == places[j := Null];
    } else {
      assert !Applies(words, openable, j);
    }
  }

  // ---------------------------------------------------------------- exec_command

  /** The number of places for arguments. */
  const PLACES := 16

  /** Collects the words and the NULL after them; there is room for fifteen words. */
  method CollectWords(args: array<Argument>, words: seq<string>) returns (fits: bool)
    requires args.Length == PLACES && words != []
    modifies args
    ensures fits <==> |words| < PLACES
    ensures fits ==> HoldsWords(args[..], words, {}, 0)
  {
    args[0] := Word(words[0]);
    var i := 1;
    while i < |words|
      invariant 1 <= i <= |words| && i <= PLACES
      invariant forall j | 0 <= j < i :: args[j] == Word(words[j])
    {
      if i == PLACES {
        return false;
      }
      args[i] := Word(words[i]);
      i := i + 1;
    }
    if i == PLACES {
      return false;
    }
    args[i] := Null;
    fits := true;
  }

  /** What becomes of a command in the child. */
  datatype Fate = Execve(arguments: seq<string>, table: Table) | NoProgram | TooManyWords

  method ExecCommand(command: string, openable: set<string>, t: Table) returns (fate: Fate)
    requires Standard(t)
    ensures fate.NoProgram? <==> Words(command) == []
    ensures fate.TooManyWords? <==> |Words(command)| >= PLACES
    ensures fate.Execve? ==>
              var words := Words(command);
              && fate.arguments == Arguments(words, openable, 1)
              && IsRedirected(t, words, openable, |words|, fate.table)
  {
    var words := Words(command);
    if words == [] {
      return NoProgram;
    }
    var args := new Argument[PLACES];
    var fits := CollectWords(args, words);
    if !fits {
      return TooManyWords;
    }
    var u := ApplyRedirections(args, words, openable, t);
    fate := Execve(UpToNull(args[..]), u);
  }
}
