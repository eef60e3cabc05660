# Verified models of a systems-programming course repository

Dafny models of five programs of the repository, each proved to do what the program is
for:

* **The elevator simulator (`hw7`)** is the main part. Passenger threads and four
  elevator threads hand a one-shot token back and forth; a nearest-target scheduler drives
  each car; a referee keeps its own record and ends the program on any violation.
  `Elevator.dfy` is one transition system with a program counter for every thread, with the
  numbers of floors, passengers and trips as parameters. Every statement on shared state is
  a step of its own, and the referee's check, its second check and the act are three
  separate steps. A turn that a thread takes while its wait condition is false changes
  nothing; this covers spurious wake-ups, and a run is any sequence of turns. On top of it:
  `ElevatorSafety.dfy` (no violation, the token, the riders), `ElevatorDelivery.dfy` and
  `ElevatorProgress.dfy` (delivery in a bounded number of calls, no deadlock on the way),
  `ElevatorStarts.dfy` (cars that never begin), `ElevatorBounds.dfy` (delivered within a
  stated number of turns, or stuck), `ElevatorIndependence.dfy` (when cars commute),
  `ElevatorPhantom.dfy` (how car 0 gets stuck), `ElevatorAim.dfy` (for whom a door opens),
  `ElevatorTrap.dfy` (how the other cars get stuck, and when exactly any of them can),
  `ElevatorSweep.dfy` (what a car does with nobody left), `ElevatorStop.dfy` (how the
  program ends), `ElevatorOneFloor.dfy` (for which parameters exactly there is no violation),
  `ElevatorTrips.dfy` (random floors, where trips start and end, how many there are, the
  order of boarding), `ElevatorCounts.dfy` (what the counted calls, moves and turns are).
  `ElevatorRuns.dfy` puts the runs together that the examples need. `Census.dfy` counts
  passengers by where their threads stand, `Nearest.dfy` is the choice of a target, and
  `RidingList.dfy` has the linked riding list and the scan loops as they are written, with
  objects and pointers, tied to the transition system.
* **The text rewriter (`hw3`)**: `Rewriter.dfy`, the pointer loop on a C string against
  leftmost replacement, and `RewriterFibres.dfy`, which texts it makes the same.
* **The shell (`hw4`)**: `Descriptors.dfy` (the descriptor table), `Shell.dfy` (pipes,
  forks and what each command gets), `ShellText.dfy` (reading and printing a line),
  `ShellBuffer.dfy` (the runner that overwrites separators in the line buffer),
  `ShellLines.dfy` (what it does with every line, well-formed or not), `ShellOverrun.dfy`
  (the lines on which it leaves its text), `Redirects.dfy` (words and redirections before
  `execve`), `ShellStages.dfy` (from a printed pipeline to what its programs find),
  `ShellSession.dfy` (the main loop). fork copies the table; exec records the command with
  descriptors 0, 1 and 2 and does not return.
* **The question and answer servers (`hw8`)**: `TurnServer.dfy` (the single-threaded
  server, its event loop and what both clients see), `ClientList.dfy` and `Sessions.dfy`
  (the threaded server's list with deletion in place, over any number of sessions).
* **The heap printer (`hw6`)**: `HeapWalk.dfy`.

## Whether the elevators deliver

For any number of trips, what has been proved comes to this. A passenger registers for
each trip without a lock: he writes the floor he waits on into his car's target and fills
in his record. He is on a trip from then until he has left the car. Once all passengers of
a car have registered for their last trip (for car 0: once no record of another car's
passenger is one not yet written), the first call that the car begins after that, and every
later one, serves somebody whenever its door opens, and a stated number of turns delivers
everybody for good. A call during which somebody registers may fail: his write to the
target can come between planning and decision, so that a full car opens where he may not
get in and nobody wants to get out; and car 0 takes records not yet written for requests to
itself. A car whose passengers are all on trips then and may not take the token stays where
it is for ever. That at any time a car has delivered its passengers or one of its threads
can go on holds for cars without passengers and for cars 1 to 3 with exactly three
(`ElevatorTrap.GoesOnExactlyWhen`); with the 50 passengers configured it holds for none of
the four. A car with fewer than three passengers never begins. When everybody is delivered
three turns of each passenger let the program stop, and every car that has begun and is not
stuck halts within a stated number of its turns.

## Assumptions of the elevator model

* Testing the wait condition and clearing the token (`hw7.c:215` with `:229`, and `:269`
  with `:275`) is one step. This is what `elevator_lock` is there for; the elevator thread
  does not always own that lock (it unlocks it at `hw7.c:406` and may wait on it in a later
  call), so it is an assumption and not a theorem.
* The three waits on the two condition variables (`hw7.c:226`, `:273` and `:397`) are
  guarded steps. That the variables are shared between cars only means more wake-ups.
* No wake-up is lost. The elevator thread may set its flag and signal (`hw7.c:389-390`)
  without holding `elevator_lock`, between a passenger's test at `:215` and his wait at
  `:226`; then both sides wait. The model has no such run: a true condition is seen when
  its thread next takes a turn.
* Random floors are arbitrary floors: every draw is a parameter of the turn that makes it.
* Counters that are incremented without a lock (`start`) are incremented atomically, and
  one iteration of a scan loop is one step.
* Four cars and a capacity of three are what the code fixes. The numbers of floors,
  passengers and trips are free unless a theorem says otherwise; most theorems speak of
  buildings of at least two floors.

Where code and comments of the repository differ, the models follow the code.

## Model

| member | source | states |
|---|---|---|
| `NearestTarget.NearestIsFirstNearest` | hw7-jli230-main/C/hw7.c:314-322 | the scan with a strict comparison finds a floor of least distance, and of several the first in the list |
| `NearestTarget.Approach` | hw7-jli230-main/C/hw7.c:368-373 | one move towards the chosen floor makes the distance to the nearest of all asked-for floors exactly one less |
| `RidingList.ElevatorInfo.AddToList` | hw7-jli230-main/C/hw7.c:54-64 | the pointer loop appends at the end of the list |
| `RidingList.ElevatorInfo.RemoveFromList` | hw7-jli230-main/C/hw7.c:67-83 | removes exactly that passenger wherever it is on the list and keeps the order; the assert fires if and only if the list is non-empty and does not hold the passenger, and an empty list is dereferenced |
| `RidingList.ElevatorInfo.NearestDestination` | hw7-jli230-main/C/hw7.c:314-322 | the walk over `next` returns the nearest destination of all riders |
| `RidingList.ElevatorInfo.NearestWaiter` | hw7-jli230-main/C/hw7.c:335-347 | the array scan returns the nearest floor among exactly the waiting passengers of this car, or -1 for none |
| `RidingList.ElevatorInfo.Plan` | hw7-jli230-main/C/hw7.c:298-373 | a call targets the nearest rider's destination, or with no riders the nearest waiter, and turns towards it |
| `RidingList.PlanTurnByTurn` | hw7-jli230-main/C/hw7.c:307-373 | with the records left alone meanwhile, the same loops cut into single turns reach the same target and direction as the whole call |
| `ElevatorDelivery.NeverNone` | hw7-jli230-main/C/hw7.c:335-347 | the sentinel -1 is reported if and only if nobody waits for the car |
| `ElevatorSafety.RunKeepsInv` | hw7-jli230-main/C/hw7.c:179-412 | every run of any threads, in any interleaving and whatever floors are drawn, keeps the invariant |
| `ElevatorTrips.AnyOrigins` | hw7-jli230-main/C/main.c:241-242 | the passengers may start on any floors, in any combination |
| `ElevatorTrips.AnyDestination` | hw7-jli230-main/C/main.c:249-258 | in any reachable state in which a passenger begins a trip each floor of the building can become his destination, and he has one trip less to make |
| `ElevatorSafety.NoViolation` | hw7-jli230-main/C/main.c:37-262 | no violation of the referee and no failing assert of the riding list is reachable, for any number of floors from two on, of passengers and of trips |
| `ElevatorSafety.CarIsChecked` | hw7-jli230-main/C/main.c:37-122 | the referee is strict: in any state, reachable or not, a car about to open, close or move ends the program with its next turn if and only if it may not, and the message is true |
| `ElevatorSafety.PassengerIsChecked` | hw7-jli230-main/C/main.c:149-222 | the same for a passenger about to enter or leave, and for the two checks after he has left |
| `ElevatorOneFloor.SafeExactlyWhen` | hw7-jli230-main/C/main.c:61-64 | no violation is reachable if and only if the number of floors is not one, or there are no trips, or car 0 has fewer than three passengers, so that no car ever makes a call |
| `ElevatorOneFloor.OneFloorViolates` | hw7-jli230-main/C/hw7.c:298-410 | in a building of one floor with three passengers for car 0 the referee's message that a car moves outside the building is reachable |
| `ElevatorSafety.ActsAreStillAllowed` | hw7-jli230-main/C/main.c:68-232 | whenever a thread is about to open, close, move, enter or leave, after the checks it passed, that is still allowed: doors, floors, places and states are as they have to be, and a move stays in the building |
| `ElevatorSafety.OneTokenPerDoorOpening` | hw7-jli230-main/C/hw7.c:389-399 | ready flag, passengers holding the token and returned flag add up to one exactly while the car serves and to zero otherwise; a ready car has its door open on the floor the scheduler believes |
| `ElevatorSafety.ServedOneAtATime` | hw7-jli230-main/C/hw7.c:228-285 | two passengers of a car are never between taking and returning the token |
| `ElevatorSafety.RiderCountersAgree` | hw7-jli230-main/C/hw7.c:233-234 | while nobody holds the token the scheduler's count, the list's length and the referee's count are equal and at most three |
| `ElevatorSafety.RidersAreThoseInside` | hw7-jli230-main/C/main.c:184-186 | at such moments the list names exactly the car's passengers the referee has inside |
| `ElevatorSafety.RidingListsDisjoint` | hw7-jli230-main/C/hw7.c:54-83 | at any moment no passenger is on a list twice or on the lists of two cars |
| `ElevatorSafety.FloorsStayInside` | hw7-jli230-main/C/hw7.c:188-410 | scheduler and referee floors stay in the building, whatever late registrations write to `wait_at` |
| `ElevatorTrips.TripsJoin` | hw7-jli230-main/C/main.c:225-273 | until a passenger has left the car the referee has him on the floor he registered from, so a trip starts where the one before it ended; and it has him in his car from entry to exit and in none otherwise |
| `ElevatorTrips.TripsAddUp` | hw7-jli230-main/C/main.c:249-273 | in every run from the start the trips a passenger has ended and those still to end add up to TRIPS_PER_PASSENGER, and whoever finishes has ended that many |
| `ElevatorTrips.RidersStayInOrder` | hw7-jli230-main/C/hw7.c:54-83 | no turn of any thread changes the order of two riders who stay on a list, and whoever is put on it comes last |
| `ElevatorDelivery.RegisteredIsSettled` | hw7-jli230-main/C/hw7.c:187-196 | for any number of trips, a passenger past registration for the last one is on the scheduler's record with the right floors, car and status, and nobody else is taken for one of the car's |
| `ElevatorDelivery.PlanKeepsCourse` | hw7-jli230-main/C/hw7.c:307-411 | every planning step of a call carries the nearest of exactly what the car is asked for |
| `ElevatorDelivery.Turn` | hw7-jli230-main/C/hw7.c:293-411 | a completed call leaves one call fewer to do, and no turn of any thread leaves more |
| `ElevatorDelivery.BoundedDelivery` | hw7-jli230-main/C/hw7.c:293-411 | once a car's n passengers are registered for their last trip, 2 * n * FLOORS completed calls deliver all of them where they wanted to go, in any interleaving; a call that is in progress at that moment is not counted, and may be one that never ends |
| `ElevatorCounts.OneMovePerCall` | hw7-jli230-main/C/hw7.c:290-412 | between two moments at which a car is between calls it has moved once for each call counted, one floor up or down each time |
| `ElevatorProgress.DoorCanBeLeft` | hw7-jli230-main/C/hw7.c:396-398 | in a call that began after registration, at an open door some passenger of the car may take the token, the car full or not |
| `ElevatorBounds.OpenDoorIsServed` | hw7-jli230-main/C/hw7.c:215-275 | the same in every run from registration for the last trip, once the car was between two calls or has completed one: it is never stuck from then on |
| `ElevatorProgress.NoDeadlock` | hw7-jli230-main/C/hw7.c:293-411 | in such calls, as long as something is left to deliver, a thread of that car can make a change |
| `ElevatorBounds.DeliveryInBoundedTurns` | hw7-jli230-main/C/hw7.c:179-412 | from registration of the n passengers of a car for their last trip, anywhere in a call, 2 * n * FLOORS * (PASSENGERS + 40) + 2 * (PASSENGERS + 31) + 18 * n turns of its threads that change something deliver everybody, without any fairness between them |
| `ElevatorCounts.NoTurnNoChange` | hw7-jli230-main/C/hw7.c:179-412 | a run in which no turn of a car's threads is counted leaves the car and its passengers as they were |
| `ElevatorBounds.DeliveredStuckOrGoingOn` | hw7-jli230-main/C/hw7.c:179-412 | in every reachable state in which all passengers of a car, three or more, are on trips they have registered for or done, the car has delivered them for good, or is stuck, or one of its threads can make a change |
| `ElevatorBounds.RegisteredGoOn` | hw7-jli230-main/C/hw7.c:179-412 | the same in every run from registration for the last trip |
| `ElevatorStarts.FewerThanThreeWaitForEver` | hw7-jli230-main/C/hw7.c:293-295 | a car with fewer than three passengers never lets anybody in, for any number of trips from one on |
| `ElevatorIndependence.CarsCommute` | hw7-jli230-main/C/hw7.c:180-346 | in every reachable state turns of threads of two cars commute, registered or not; if one is car 0 and it is scanning the records, no other car's passenger may still have an unwritten one |
| `ElevatorIndependence.CommuteExactlyWhen` | hw7-jli230-main/C/hw7.c:335-347 | all turns of different cars commute in all reachable states if and only if there are no trips or fewer than nine passengers |
| `ElevatorIndependence.InterleavingIsIrrelevant` | hw7-jli230-main/C/hw7.c:179-412 | when no record names car 0 but those of its own passengers, two schedules with the same turns of each car in the same order end in the same state |
| `ElevatorIndependence.OneRunPerCar` | hw7-jli230-main/C/hw7.c:179-412 | and every run ends where one run of each car after the other ends |
| `ElevatorIndependence.RegisteredOnRecord` | hw7-jli230-main/C/hw7.c:194-195 | the record of a passenger on a trip he has registered for, or back from the last, names his own car, so that is so while all passengers of cars 1 to 3 are |
| `ElevatorPhantom.UnwrittenRecordsInterfere` | hw7-jli230-main/C/hw7.c:336-337 | before that, a reachable state in which a turn of car 0 and a turn of a passenger of car 1 do not commute |
| `ElevatorPhantom.OnlyCarZeroIsMisled` | hw7-jli230-main/C/hw7.c:336-337 | records not yet written are taken for requests to car 0 only; for the other cars their own passengers' registration is enough |
| `ElevatorBounds.StuckForEver` | hw7-jli230-main/C/hw7.c:396-398 | a car that offers its token where none of its registered passengers may take it stays there in every run, and those who wait for it wait |
| `ElevatorPhantom.CarZeroCanDeadlock` | hw7-jli230-main/C/hw7.c:335-398 | with nine or more passengers and any number of trips from one on, a reachable state in which car 0 is stuck, with all of its passengers registered, and none ever gets in |
| `ElevatorAim.OpensForSomebody` | hw7-jli230-main/C/hw7.c:335-398 | in every reachable state, registered or not, whenever a car other than car 0 offers its token one of its passengers is on that floor to get out, or to get in |
| `ElevatorTrap.StuckIsFull` | hw7-jli230-main/C/hw7.c:215-228 | such a car is stuck only if it is full, with a passenger waiting at its open door |
| `ElevatorTrap.FourAreTrapped` | hw7-jli230-main/C/hw7.c:188-398 | for each other car with four passengers or more, in a building of any size and with any number of trips from one on, a reachable state in which it is stuck with all its passengers on trips they have registered for |
| `ElevatorTrap.StuckExactlyWhen` | hw7-jli230-main/C/hw7.c:187-398 | a car can get stuck, with all its passengers on trips they have registered for, if and only if there are trips and it is car 0 and has at least three passengers, or another and has at least four |
| `ElevatorTrap.GoesOnExactlyWhen` | hw7-jli230-main/C/hw7.c:179-412 | that in every reachable state a car has delivered its passengers for good or one of its threads can make a change holds if and only if it has none, or is not car 0 and has exactly three |
| `ElevatorSweep.DeliveredPatrols` | hw7-jli230-main/C/hw7.c:335-347 | in a reachable state between two calls with its passengers registered for their last trip and all delivered, a car is asked for nothing |
| `ElevatorSweep.DoorStaysShut` | hw7-jli230-main/C/hw7.c:375-398 | and in every run from there its door is shut |
| `ElevatorSweep.Patrol` | hw7-jli230-main/C/hw7.c:298-301 | its place in a round trip of the building, which tells its floor, is further on by the number of its moves, whatever else happens |
| `ElevatorSweep.SameFloorAfterRoundTrip` | hw7-jli230-main/C/hw7.c:298-410 | 2 * (FLOORS - 1) moves bring it back to the same floor |
| `ElevatorSweep.EveryFloorIsVisited` | hw7-jli230-main/C/hw7.c:298-410 | and within one such round it is at every floor |
| `ElevatorStop.StopIsReached` | hw7-jli230-main/C/main.c:361-364 | once everybody is back from the last trip, three turns of each passenger, among any others, lead to where the main thread stops the program |
| `ElevatorStop.HaltsInBoundedTurns` | hw7-jli230-main/C/main.c:131-134 | once it is stopped, PASSENGERS + 31 turns of an elevator thread that change something halt it, whatever the others do |
| `ElevatorStop.GoesOnToHalt` | hw7-jli230-main/C/main.c:131-134 | and until it has halted each turn of it does change something, if it has begun and is not stuck |
| `ElevatorStop.NotStuckOnceStopped` | hw7-jli230-main/C/main.c:361-366 | which no car but car 0 can be by then |
| `Rewriter.SafeWrite` | hw3-jli230-main/C/safeprep.c:7-26 | the pointer loop writes the leftmost replacement back into the text's own memory and counts six less for each match; it leaves its buffer if and only if the result has 1024 characters or more |
| `Rewriter.ReplaceAll` | hw3-jli230-main/C/safeprep.c:11-23 | the loop alone: what is in the buffer and what is left of the text make up the replacement |
| `Rewriter.RewriteLength` | hw3-jli230-main/C/safeprep.c:17-22 | six characters fewer for each match |
| `Rewriter.RewriteLeavesNone` | hw3-jli230-main/C/safeprep.c:11-24 | the output nowhere contains the word, not even across the seams |
| `Rewriter.RewriteIdempotent` | hw3-jli230-main/C/safeprep.c:11-24 | rewriting twice is rewriting once |
| `Rewriter.RoundTrip` | hw3-jli230-main/C/safeprep.c:11-24 | exchanging the words back restores the input if and only if the input does not contain "GOD" |
| `Rewriter.RewriteInjective` | hw3-jli230-main/C/safeprep.c:11-24 | two inputs without "GOD" and with the same output are the same |
| `Rewriter.RewriteNotInjective` | hw3-jli230-main/C/safeprep.c:11-24 | "GOD" and "evolution" have the same output |
| `RewriterFibres.SameOutputExactlyWhen` | hw3-jli230-main/C/safeprep.c:11-24 | two inputs have the same output if and only if exchanging the words the other way round makes them the same |
| `Rewriter.WrittenBytes` | hw3-jli230-main/C/safeprep.c:22-25 | if `count` is the length of the text, the bytes written are exactly the rewritten text |
| `Rewriter.ShortTextFits` | hw3-jli230-main/C/safeprep.c:8-24 | a text shorter than 1024 never overflows the buffer |
| `Descriptors.AllocateCounts` | hw4-jli230-main/C/dsh.c:71-73 | pipe, dup and open take the lowest free number and change no other |
| `Descriptors.Dup2Counts` | hw4-jli230-main/C/dsh.c:76-86 | dup2 between open descriptors changes the target only and opens none |
| `Shell.OneBar` | hw4-jli230-main/C/dsh.c:69-88 | left of a bar the command writes into a new pipe, and whatever ran on the right with that pipe for its input leaves a table in which everything is as before, with two more descriptors open |
| `Shell.Wiring` | hw4-jli230-main/C/dsh.c:69-170 | whatever a line was split into: the commands in order, each with the pipe or the shell's own descriptor at each end, everything that was open kept, two more descriptors for each bar |
| `Shell.PipelineWiring` | hw4-jli230-main/C/dsh.c:69-88 | stage k + 1 reads the pipe that stage k writes; the first reads and the last writes what the shell did |
| `Shell.RunsTheCommands` | hw4-jli230-main/C/dsh.c:90-107 | a line of pipelines runs exactly their commands, in their order |
| `ShellText.PipelinesOfShown` | hw4-jli230-main/C/dsh.c:84-107 | reading a printed line gives back its pipelines; `;` is looser than the bar |
| `ShellBuffer.Dsh.Run` | hw4-jli230-main/C/dsh.c:96-170 | the runner on the line buffer ends, stays inside it on every line, and does what the splitting of the buffer says |
| `ShellBuffer.Dsh.RunPipeline` | hw4-jli230-main/C/dsh.c:69-88 | the same around the first bar, call by call on the descriptor table |
| `ShellLines.RunsTheText` | hw4-jli230-main/C/dsh.c:96-107 | on a well-formed text overwriting separators in place does what the text says and touches nothing else |
| `ShellLines.PrintAndRun` | hw4-jli230-main/C/dsh.c:84-107 | a printed line in the buffer runs exactly the printed commands, in order |
| `ShellBuffer.AnyLine` | hw4-jli230-main/C/dsh.c:69-170 | well-formed or not, a line is wired as it was split, keeps what was open and leaks two descriptors for each bar |
| `ShellLines.EveryLine` | hw4-jli230-main/C/dsh.c:84-107 | every text that fills its buffer, well-formed or not, is split into the one program it means: a part that ends in a bar is piped into all that follows its semicolon, or into the empty command at the end of the line, and then the first stage of what follows runs once more |
| `ShellLines.RunsEveryLine` | hw4-jli230-main/C/dsh.c:84-170 | and that is the program the shell runs |
| `ShellOverrun.StaysInsideExactlyWhen` | hw4-jli230-main/C/dsh.c:84-107 | every call of the runner starts no later than its caller's text ends if and only if the text is well-formed: a character follows each bar it is split at |
| `ShellOverrun.IllFormedPart` | hw4-jli230-main/C/dsh.c:84-116 | a part between semicolons is not well-formed if and only if it is a well-formed one with one more bar at its end |
| `ShellOverrun.BarAtEnd` | hw4-jli230-main/C/dsh.c:84-116 | such a part pipes its stages into whatever the buffer holds one place beyond its end |
| `ShellOverrun.BarBeforeSemicolon` | hw4-jli230-main/C/dsh.c:84-107 | before a semicolon that is all that follows the semicolon; then what follows runs a second time, but only up to its first separator of either kind, which the first time has overwritten |
| `Redirects.WordsOfShown` | hw4-jli230-main/C/dsh.c:12-17 | words joined by blanks are read back |
| `Redirects.WordsAround` | hw4-jli230-main/C/dsh.c:12-17 | a blank only separates: what stands before it and after it is read on its own, so leading, doubled and trailing ones make no difference |
| `Redirects.CollectWords` | hw4-jli230-main/C/dsh.c:13-17 | the words fit the sixteen places with their NULL if and only if there are at most fifteen |
| `Redirects.ApplyRedirections` | hw4-jli230-main/C/dsh.c:18-44 | each descriptor goes to the file of its last operator that could be opened, no other changes and none leaks, and the arguments end before the first such operator |
| `Redirects.OperatorsRedirect` | hw4-jli230-main/C/dsh.c:19-43 | `<` redirects descriptor 0, `>` descriptor 1 and `2>` descriptor 2, each to the file behind its last occurrence after the program that could be opened; without one the descriptor is what it was |
| `Redirects.ArgumentsAre` | hw4-jli230-main/C/dsh.c:18-44 | the program gets the words before the first operator with a file that could be opened |
| `Redirects.ExecCommand` | hw4-jli230-main/C/dsh.c:10-44 | the same from the command's text, with the cases of no word and of too many |
| `ShellStages.StageFinds` | hw4-jli230-main/C/dsh.c:10-170 | each stage of a printed pipeline with one to fifteen words is read back as its words, and any table the redirection loop can leave in its child has as descriptors 0, 1 and 2 the file of the last operator for it that could be opened, or else the stage's end of the pipe, or else what the shell has |
| `ShellSession.OneLine` | hw4-jli230-main/C/dsh.c:216-240 | one turn of the main loop on the memory of a line, cut before its first NUL; a line that starts with a NUL is written to outside its memory |
| `ShellSession.LineIsCut` | hw4-jli230-main/C/dsh.c:227 | exactly one character goes: the newline, or the last character of a text that has none |
| `ShellSession.TypedLine` | hw4-jli230-main/C/dsh.c:203-228 | a typed line is run as the program its text means, well-formed or not |
| `ShellSession.LineOfSession` | hw4-jli230-main/C/dsh.c:216-227 | a line's ends are the null device and the two files of its number |
| `ShellSession.LinesAreNumbered` | hw4-jli230-main/C/dsh.c:203-243 | line k of a session runs after the lines before it and writes to the files numbered k |
| `ShellSession.TerminalComesBack` | hw4-jli230-main/C/dsh.c:203-245 | after any number of lines descriptors 0, 1 and 2 are what they were at the start; three copies and two descriptors for each pipe stay open |
| `TurnServer.Process.Handle` | hw8-jli230-main/C/hw8b.c:66-154 | the event loop's body does what the step function says |
| `TurnServer.Process.Receive` | hw8-jli230-main/C/hw8b.c:97-124 | the text of a message under 100 bytes is what stands before its first NUL |
| `TurnServer.TurnDiscipline` | hw8-jli230-main/C/hw8b.c:79-151 | in every two-client run what is passed on is exactly the messages in turn, in order, each to the other client; each other message gets its sender one reminder; the state tells whose turn it is |
| `TurnServer.InboxesOfEveryRun` | hw8-jli230-main/C/hw8b.c:66-151 | what each client receives over every two-client run, in order: the asker the prompt, the two notices, his answers under their heading with the notice after each, or the reminder; the answerer the prompt, the notice, the questions under their heading, the notice after each answer, or the reminder; every heading goes to the client who gets the text after it, and nobody else receives anything |
| `TurnServer.HangUpAlone` | hw8-jli230-main/C/hw8b.c:104-128 | before the second client has come a hang-up of the first is answered with the reminder |
| `TurnServer.StrictAlternation` | hw8-jli230-main/C/hw8b.c:123-146 | questions and answers alternate from the first question on, and the state is the difference of their numbers |
| `TurnServer.HangUpEnds` | hw8-jli230-main/C/hw8b.c:104-121 | at a hang-up the other client is told and the session is over |
| `ClientList.List.RemoveInactives` | hw8-jli230-main/C/hw8a.c:71-97 | in place and without dereferencing null, exactly the inactive clients go, the others keep their order, and `actives` drops by their number |
| `ClientList.ActiveOnlyIs` | hw8-jli230-main/C/hw8a.c:71-97 | those that stay are exactly the clients marked active |
| `ClientList.ActiveOnlyKeepsOrder` | hw8-jli230-main/C/hw8a.c:71-97 | and whoever comes first on the list comes first among those that stay |
| `Sessions.Server.Accept` | hw8-jli230-main/C/hw8a.c:39-69 | inserts first, as asker or answerer |
| `Sessions.Server.Message` | hw8-jli230-main/C/hw8a.c:198-232 | the state after a message |
| `Sessions.Server.Close` | hw8-jli230-main/C/hw8a.c:179-198 | a hang-up marks both clients and takes them out, and the two pointers it uses lead to clients on the list; in WAIT_CLIENTS it goes unnoticed, and what the buffer still holds is handled as a message |
| `Sessions.TurnDiscipline` | hw8-jli230-main/C/hw8a.c:198-232 | in every session, the first or a later one, after any messages of the two it is the asker's turn if and only if an even number of them were in turn, counted from the messages alone; nothing else changes |
| `Sessions.FirstSession` | hw8-jli230-main/C/hw8a.c:39-69 | in particular after the first two connections |
| `Sessions.OneMessage` | hw8-jli230-main/C/hw8a.c:213-227 | a message in turn passes the turn on and one out of turn changes nothing |
| `Sessions.LoneHangUp` | hw8-jli230-main/C/hw8a.c:179-198 | while the second client is waited for a hang-up changes nothing, but what the buffer still holds is taken for an answer if the asker has the old answerer's descriptor |
| `Sessions.HangUpEndsSession` | hw8-jli230-main/C/hw8a.c:179-197 | after a hang-up outside WAIT_CLIENTS nobody is left |
| `Sessions.ListOfEveryRun` | hw8-jli230-main/C/hw8a.c:276-293 | over all runs through any number of sessions the list is empty, the asker, or answerer and asker, and `actives` is its length and at most two |
| `Sessions.NewSession` | hw8-jli230-main/C/hw8a.c:39-48 | a new session starts like the first, except for the old answerer's descriptor number |
| `Sessions.LoneAsker` | hw8-jli230-main/C/hw8a.c:213-227 | after any run that leaves one client, he is the asker, and his message is taken for an answer if and only if his descriptor is the one the last answerer had |
| `Sessions.OldDescriptorMisleads` | hw8-jli230-main/C/hw8a.c:39-69 | that happens in the run from the start in which an asker hangs up and the next client is given the old answerer's descriptor: he is alone and in WAIT_ASKER |
| `HeapWalk.PrintHeap` | hw6-jli230-main/C/heapdump.c:51-61 | the loop prints the listing of the chunks below the break |
| `HeapWalk.EndsIff` | hw6-jli230-main/C/heapdump.c:54-59 | the loop ends if and only if no chunk on its way has size zero |
| `HeapWalk.HeapRoundTrip` | hw6-jli230-main/C/heapdump.c:10-61 | printing any memory laid out as a tiling of chunks gives the chunks back |
| `HeapWalk.ExpectedAt` | hw6-jli230-main/C/heapdump.c:26-40 | chunk by chunk: its size and address, and its use as recorded in the next header; the last is always shown as free |
| `HeapWalk.FlagIsInNextHeader` | hw6-jli230-main/C/heapdump.c:6-26 | the macro and the caller step to the same header if and only if bit 2 of the size word is clear |
| `HeapWalk.PrintFreelist` | hw6-jli230-main/C/heapdump.c:62-69 | prints every member of the circular list, in order, and ends |
| `HeapWalk.FreelistShowsBlocks` | hw6-jli230-main/C/heapdump.c:10-69 | on a heap laid out from blocks each member is shown with the size, place and use of its own block |
| `HeapWalk.RingHasNoRepeats` | hw6-jli230-main/C/heapdump.c:63-66 | no member is printed twice |

## Left out

- hw7 locks: mutex ownership, the unlock by a thread that does not own the lock, condition-variable internals and memory-model effects; see the assumptions above.
- hw7 `waitlist`, `wait_count`, `wait_num`, `ridelist`, `next_wait` (it stays -1) and the global `wait_at`: no live decision depends on them. Also the commented-out single-car version.
- hw7 in place: threads, records and cars are values of a transition system; only the riding list, the scans and the planning are also modelled on objects.
- hw7 drawing, logging, timing and sleeping.
- PlanTurnByTurn: the records stay fixed between the turns; what a plan carries while passengers register is said by PlanKeepsCourse and FloorsStayInside on the transition system.
- BoundedDelivery: counts from registration for the last trip; while trips are still to come only DeliveredStuckOrGoingOn, StuckExactlyWhen and GoesOnExactlyWhen speak of progress.
- hw3 `safe.c` and `safecat.c`: the same loop with `dlsym` and input plumbing.
- hw4 PATH search and `execve`, session folders, pipe capacity, limits on open descriptors, failing `pipe`, `fork` or output files, and the commented-out redirections.
- RunsTheText: for texts with a character after each bar, wherever they stand in the buffer; what other lines run is given by EveryLine.
- hw8 sockets, ports and epoll registration, read errors, how sends are cut into packets, and a third client of the single-threaded server.
- hw8a payloads (the buffer is not terminated after a read), failing thread creation, and what the handler threads do after their session has ended.
- HeapWalk addresses do not wrap around at 64 bits, and print_freelist is followed only on lists that come back to their header.
- hw1, hw2, hw5 and the demo driver of hw6.
