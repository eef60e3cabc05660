/** The threaded server's sessions: who is connected, and the state, over any sequence of
    connections, messages and hang-ups. Each event is one atomic step. */
module Sessions {
  import opened ClientList

  datatype Phase = WaitClients | WaitAsker | WaitAnswerer | Exit

  datatype Seat = Seat(fd: nat, kind: Kind)

  /** The server's variables; the newest client comes first. */
  datatype View = View(phase: Phase, seats: seq<Seat>, actives: int, askerfd: nat, answererfd: nat)

  /** `stale` tells whether the handler's buffer, which a read at the end of the input
      leaves alone, begins with something other than a NUL. */
  datatype Event = Connect(fd: nat) | Says(fd: nat) | Leaves(fd: nat, stale: bool)

  const INITIAL := View(WaitClients, [], 0, 0, 0)

  const MAX_CLIENTS := 2

  predicate IsConnected(v: View, fd: nat) {
    exists k :: 0 <= k < |v.seats| && v.seats[k].fd == fd
  }

  function Insert(v: View, fd: nat): View {
    if v.actives == 0 then View(WaitClients, [Seat(fd, Asker)] + v.seats, v.actives + 1, fd, v.answererfd)
    else View(WaitAsker, [Seat(fd, Answerer)] + v.seats, v.actives + 1, v.askerfd, fd)
  }

  function PhaseAfterMessage(v: View, fd: nat): Phase {
    if fd == v.answererfd then WaitAsker
    else if fd == v.askerfd && v.phase != WaitClients then WaitAnswerer
    else v.phase
  }

  /** The clients without the one who leaves and his partner. */
  function Remaining(seats: seq<Seat>, fd: nat, partner: nat): seq<Seat> {
    if seats == [] then []
    else if seats[0].fd == fd || seats[0].fd == partner then Remaining(seats[1..], fd, partner)
    else [seats[0]] + Remaining(seats[1..], fd, partner)
  }

  /** While the second client is waited for, an end of input is not noticed; what is in
      the buffer then is taken for a message. */
  function HangUp(v: View, fd: nat, stale: bool): View {
    if v.phase == WaitClients then v.(phase := if stale then PhaseAfterMessage(v, fd) else v.phase)
    else
      var left := Remaining(v.seats, fd, if fd == v.answererfd then v.askerfd else v.answererfd);
      v.(phase := Exit, seats := left, actives := v.actives - (|v.seats| - |left|))
  }

  /** With two clients nobody is accepted, and no new connection has a descriptor that is
      in use; a client that is not connected sends nothing. */
  function Step(v: View, e: Event): View {
    match e
    case Connect(fd) => if v.actives == MAX_CLIENTS || IsConnected(v, fd) then v else Insert(v, fd)
    case Says(fd) => if IsConnected(v, fd) then v.(phase := PhaseAfterMessage(v, fd)) else v
    case Leaves(fd, stale) => if IsConnected(v, fd) then HangUp(v, fd, stale) else v
  }

  function Run(v: View, events: seq<Event>): View
    decreases |events|
  {
    if events == [] then v else Run(Step(v, events[0]), events[1..])
  }

  // ---------------------------------------------------------------- what always holds

  /** Nobody, an asker, or an answerer and an asker; and the number is right. A lone asker
      is waited for in no other state unless he has the descriptor of an answerer of an
      earlier session. */
  predicate Proper(v: View) {
    && v.actives == |v.seats|
    && if v.seats == [] then v.phase == WaitClients || v.phase == Exit
       else if |v.seats| == 1 then
         && v.seats[0] == Seat(v.askerfd, Asker)
         && (v.phase == WaitClients || (v.phase == WaitAsker && v.askerfd == v.answererfd))
       else
         && v.seats == [Seat(v.answererfd, Answerer), Seat(v.askerfd, Asker)]
         && v.answererfd != v.askerfd
         && (v.phase == WaitAsker || v.phase == WaitAnswerer)
  }

  lemma ConnectKeepsProper(v: View, fd: nat)
    requires Proper(v)
    ensures Proper(Step(v, Connect(fd)))
  {
    if |v.seats| == 1 && !IsConnected(v, fd) {
      assert v.seats[0].fd != fd;
      assert Insert(v, fd).seats == [Seat(fd, Answerer), Seat(v.askerfd, Asker)];
    }
  }

  lemma HangUpEndsSession(v: View, fd: nat, stale: bool)
    requires Proper(v) && IsConnected(v, fd)
    ensures v.phase != WaitClients ==> HangUp(v, fd, stale).seats == [] && HangUp(v, fd, stale).phase == Exit
    ensures v.phase == WaitClients ==> HangUp(v, fd, stale).seats == v.seats
    ensures Proper(HangUp(v, fd, stale))
  {
    if v.phase != WaitClients {
      var partner := if fd == v.answererfd then v.askerfd else v.answererfd;
      assert Remaining(v.seats[1..], fd, partner) == [] by {
        if |v.seats| == 2 {
          assert v.seats[1..][1..] == [];
        }
      }
    }
  }

  lemma StepKeepsProper(v: View, e: Event)
    requires Proper(v)
    ensures Proper(Step(v, e))
  {
    match e
    case Connect(fd) => ConnectKeepsProper(v, fd);
    case Says(fd) =>
    case Leaves(fd, stale) =>
      if IsConnected(v, fd) {
        HangUpEndsSession(v, fd, stale);
      }
  }

  /** Over all runs, through any number of sessions. */
  lemma {:induction false} AlwaysProper(v: View, events: seq<Event>)
    requires Proper(v)
    ensures Proper(Run(v, events))
    decreases |events|
  {
    if events != [] {
      StepKeepsProper(v, events[0]);
      AlwaysProper(Step(v, events[0]), events[1..]);
    }
  }

  /** From the start: never more than two, in the right order, and rightly counted. */
  lemma ListOfEveryRun(events: seq<Event>)
    ensures var v := Run(INITIAL, events);
      && v.actives == |v.seats| <= MAX_CLIENTS
      && (v.seats == [] || v.seats == [Seat(v.askerfd, Asker)]
          || v.seats == [Seat(v.answererfd, Answerer), Seat(v.askerfd, Asker)])
  {
    AlwaysProper(INITIAL, events);
    var v := Run(INITIAL, events);
    if |v.seats| == 1 {
      assert v.seats == [v.seats[0]];
    }
  }

  lemma {:induction false} RunConcat(v: View, first: seq<Event>, second: seq<Event>)
    ensures Run(v, first + second) == Run(Run(v, first), second)
    decreases |first|
  {
    if first == [] {
      assert first + second == second;
    } else {
      assert (first + second)[1..] == first[1..] + second;
      RunConcat(Step(v, first[0]), first[1..], second);
    }
  }

  lemma OneStep(v: View, e: Event)
    ensures Run(v, [e]) == Step(v, e)
  {
    assert Run(v, [e]) == Run(Step(v, e), []);
  }

  lemma TwoSteps(v: View, d: Event, e: Event)
    ensures Run(v, [d, e]) == Step(Step(v, d), e)
  {
    assert [d, e] == [d] + [e];
    RunConcat(v, [d], [e]);
    OneStep(v, d);
    OneStep(Step(v, d), e);
  }

  /** After a session of two a new one begins just as the first one did, but for what is
      left in the descriptor variables. */
  lemma NewSession(v: View, leaver: nat, stale: bool, fd: nat)
    requires Proper(v) && |v.seats| == 2 && IsConnected(v, leaver)
    ensures Run(v, [Leaves(leaver, stale), Connect(fd)]) == View(WaitClients, [Seat(fd, Asker)], 1, fd, v.answererfd)
  {
    HangUpEndsSession(v, leaver, stale);
    TwoSteps(v, Leaves(leaver, stale), Connect(fd));
  }

  /** After any run that leaves a single client, he is the asker. A message of his is taken
      for an answer exactly if his descriptor is the one the last answerer had. */
  lemma LoneAsker(events: seq<Event>)
    requires |Run(INITIAL, events).seats| == 1
    ensures var v := Run(INITIAL, events);
      && v.seats == [Seat(v.askerfd, Asker)]
      && (Run(INITIAL, events + [Says(v.askerfd)]).phase == WaitAsker <==> v.askerfd == v.answererfd)
  {
    var v := Run(INITIAL, events);
    AlwaysProper(INITIAL, events);
    assert v.seats[0].fd == v.askerfd;
    assert v.seats == [v.seats[0]];
    RunConcat(INITIAL, events, [Says(v.askerfd)]);
    OneStep(v, Says(v.askerfd));
  }

  /** That happens: when the asker of a session hangs up and the next client is given the
      answerer's old descriptor, he is alone, and waited for to ask. */
  lemma OldDescriptorMisleads(asker: nat, answerer: nat, stale: bool)
    requires asker != answerer
    ensures var events := [Connect(asker), Connect(answerer)] + [Leaves(asker, stale), Connect(answerer)];
      && Run(INITIAL, events) == View(WaitClients, [Seat(answerer, Asker)], 1, answerer, answerer)
      && Run(INITIAL, events + [Says(answerer)]) == View(WaitAsker, [Seat(answerer, Asker)], 1, answerer, answerer)
  {
    var first := [Connect(asker), Connect(answerer)];
    var events := first + [Leaves(asker, stale), Connect(answerer)];
    var v := View(WaitAsker, [Seat(answerer, Answerer), Seat(asker, Asker)], 2, asker, answerer);
    SessionOfTwo(asker, answerer);
    RunConcat(INITIAL, first, [Leaves(asker, stale), Connect(answerer)]);
    assert v.seats[1].fd == asker;
    NewSession(v, asker, stale, answerer);
    var w := View(WaitClients, [Seat(answerer, Asker)], 1, answerer, answerer);
    RunConcat(INITIAL, events, [Says(answerer)]);
    OneStep(w, Says(answerer));
    assert w.seats[0].fd == answerer;
  }

  lemma SessionOfTwo(asker: nat, answerer: nat)
    requires asker != answerer
    ensures Run(INITIAL, [Connect(asker), Connect(answerer)])
         == View(WaitAsker, [Seat(answerer, Answerer), Seat(asker, Asker)], 2, asker, answerer)
  {
    TwoSteps(INITIAL, Connect(asker), Connect(answerer));
    SecondClient(Step(INITIAL, Connect(asker)), answerer);
  }

  // ---------------------------------------------------------------- whose turn it is

  /** These clients send a message each, in this order. */
  function Saying(fds: seq<nat>): (events: seq<Event>)
    ensures |events| == |fds|
  {
    if fds == [] then [] else [Says(fds[0])] + Saying(fds[1..])
  }

  /** How many of the messages are in turn, if it is this one's turn: the first of his,
      then the first of the other one's after that, and so on. */
  function InTurn(fds: seq<nat>, turn: nat, other: nat): nat {
    if fds == [] then 0
    else if fds[0] == turn then 1 + InTurn(fds[1..], other, turn)
    else InTurn(fds[1..], turn, other)
  }

  predicate From(fds: seq<nat>, asker: nat, answerer: nat) {
    forall k | 0 <= k < |fds| :: fds[k] == asker || fds[k] == answerer
  }

  function Turn(v: View): nat {
    if v.phase == WaitAsker then v.askerfd else v.answererfd
  }

  function Other(v: View): nat {
    if v.phase == WaitAsker then v.answererfd else v.askerfd
  }

  /** It is the other one's turn. */
  function Passed(v: View): View {
    v.(phase := if v.phase == WaitAsker then WaitAnswerer else WaitAsker)
  }

  /** In turn a message passes the turn on; out of turn it changes nothing. */
  lemma OneMessage(v: View, fd: nat)
    requires Proper(v) && |v.seats| == 2 && (fd == v.askerfd || fd == v.answererfd)
    ensures Step(v, Says(fd)) == if fd == Turn(v) then Passed(v) else v
  {
    assert v.seats[0].fd == v.answererfd && v.seats[1].fd == v.askerfd;
  }

  lemma {:induction false} MessagesOfTwo(v: View, fds: seq<nat>)
    requires Proper(v) && |v.seats| == 2 && From(fds, v.askerfd, v.answererfd)
    ensures Run(v, Saying(fds)) == if InTurn(fds, Turn(v), Other(v)) % 2 == 0 then v else Passed(v)
    decreases |fds|
  {
    if fds != [] {
      var t := Step(v, Says(fds[0]));
      assert Saying(fds)[1..] == Saying(fds[1..]);
      OneMessage(v, fds[0]);
      MessagesOfTwo(t, fds[1..]);
    }
  }

  /** The state once a second client has come to a lone one. */
  lemma SecondClient(v: View, answerer: nat)
    requires Proper(v) && |v.seats| == 1 && answerer != v.askerfd
    ensures Step(v, Connect(answerer))
         == View(WaitAsker, [Seat(answerer, Answerer), Seat(v.askerfd, Asker)], 2, v.askerfd, answerer)
    ensures Proper(Step(v, Connect(answerer)))
  {
    assert v.seats == [v.seats[0]];
    assert !IsConnected(v, answerer);
    assert Insert(v, answerer).seats == [Seat(answerer, Answerer), Seat(v.askerfd, Asker)];
  }

  /** In every session, the first or a later one, once the second client has come it is
      the asker's turn, and after any messages of the two it is his if and only if an even
      number of them were in turn. */
  lemma TurnDiscipline(events: seq<Event>, answerer: nat, fds: seq<nat>)
    requires var v := Run(INITIAL, events);
      |v.seats| == 1 && answerer != v.askerfd && From(fds, v.askerfd, answerer)
    ensures var v := Run(INITIAL, events);
      Run(INITIAL, events + [Connect(answerer)] + Saying(fds))
      == View(if InTurn(fds, v.askerfd, answerer) % 2 == 0 then WaitAsker else WaitAnswerer,
              [Seat(answerer, Answerer), Seat(v.askerfd, Asker)], 2, v.askerfd, answerer)
  {
    var v := Run(INITIAL, events);
    AlwaysProper(INITIAL, events);
    SecondClient(v, answerer);
    MessagesOfTwo(Step(v, Connect(answerer)), fds);
    RunConcat(INITIAL, events, [Connect(answerer)]);
    OneStep(v, Connect(answerer));
    RunConcat(INITIAL, events + [Connect(answerer)], Saying(fds));
  }

  /** The first session. */
  lemma FirstSession(asker: nat, answerer: nat, fds: seq<nat>)
    requires asker != answerer && From(fds, asker, answerer)
    ensures Run(INITIAL, [Connect(asker), Connect(answerer)] + Saying(fds)).phase
         == if InTurn(fds, asker, answerer) % 2 == 0 then WaitAsker else WaitAnswerer
  {
    OneStep(INITIAL, Connect(asker));
    TurnDiscipline([Connect(asker)], answerer, fds);
    assert [Connect(asker)] + [Connect(answerer)] == [Connect(asker), Connect(answerer)];
  }

  /** While the second client is waited for nothing notices that the first one has gone;
      what is left in the buffer is taken for a message of his. */
  lemma LoneHangUp(events: seq<Event>, stale: bool)
    requires var v := Run(INITIAL, events); |v.seats| == 1 && v.phase == WaitClients
    ensures var v := Run(INITIAL, events);
      Run(INITIAL, events + [Leaves(v.askerfd, stale)])
      == if stale && v.askerfd == v.answererfd then v.(phase := WaitAsker) else v
  {
    var v := Run(INITIAL, events);
    AlwaysProper(INITIAL, events);
    assert v.seats[0].fd == v.askerfd;
    RunConcat(INITIAL, events, [Leaves(v.askerfd, stale)]);
    OneStep(v, Leaves(v.askerfd, stale));
  }

  // ---------------------------------------------------------------- in place

  ghost function Seats(nodes: seq<Client>): (seats: seq<Seat>)
    ensures |seats| == |nodes|
    ensures forall k | 0 <= k < |nodes| :: seats[k] == Seat(nodes[k].fd, nodes[k].kind)
  {
    seq(|nodes|, k requires 0 <= k < |nodes| => Seat(nodes[k].fd, nodes[k].kind))
  }

  /** The server process. */
  class Server {
    const list: List
    var phase: Phase
    var askerfd: nat
    var answererfd: nat
    var asker: Client?
    var answerer: Client?

    constructor ()
      ensures Valid() && Snapshot() == INITIAL && fresh(list)
    {
      list := new List();
      phase, askerfd, answererfd, asker, answerer := WaitClients, 0, 0, null, null;
    }

    ghost function Snapshot(): View
      reads this, list
    {
      View(phase, Seats(list.nodes), list.actives, askerfd, answererfd)
    }

    /** The list is in order, everyone in it is active, and the two pointers lead to the
        clients that are there. */
    ghost predicate Valid()
      reads this, list, list.nodes
    {
      && list.Valid() && Proper(Snapshot())
      && (forall k | 0 <= k < |list.nodes| :: list.nodes[k].status == Active)
      && (|list.nodes| == 1 ==> asker == list.nodes[0])
      && (|list.nodes| == 2 ==> answerer == list.nodes[0] && asker == list.nodes[1])
    }

    /** A connection that the main loop has accepted. */
    method Accept(fd: nat)
      requires Valid() && list.actives != MAX_CLIENTS && !IsConnected(Snapshot(), fd)
      modifies this, list
      ensures Valid() && Snapshot() == Step(old(Snapshot()), Connect(fd))
    {
      ConnectKeepsProper(Snapshot(), fd);
      ghost var expected := Insert(Snapshot(), fd);
      ghost var before := list.nodes;
      var c := new Client(fd, if list.actives == 0 then Asker else Answerer, list.head);
      if list.actives == 0 {
        phase := WaitClients;
        askerfd := fd;
        asker := c;
      } else {
        phase := WaitAsker;
        answererfd := fd;
        answerer := c;
      }
      list.head := c;
      list.nodes := [c] + before;
      list.actives := list.actives + 1;
      assert list.nodes[1..] == before;
      assert Seats(list.nodes) == expected.seats;
      assert forall k | 1 <= k < |list.nodes| :: list.nodes[k] == before[k - 1];
    }

    /** A message. */
    method Message(c: Client)
      requires Valid() && c in list.nodes
      modifies this`phase
      ensures Valid() && Snapshot() == Step(old(Snapshot()), Says(c.fd))
    {
      ghost var k :| 0 <= k < |list.nodes| && list.nodes[k] == c;
      assert IsConnected(Snapshot(), c.fd) by {
        assert Seats(list.nodes)[k].fd == c.fd;
      }
      StepKeepsProper(Snapshot(), Says(c.fd));
      if c.fd == answererfd {
        if phase != WaitAsker {
          phase := WaitAsker;
        }
      } else if c.fd == askerfd {
        if !(phase == WaitClients || phase == WaitAnswerer) {
          phase := WaitAnswerer;
        }
      }
    }

    /** The end of a client's input. Both clients are marked, and the marked ones are taken
        out; but in WAIT_CLIENTS it is the message handling that goes on. */
    method Close(c: Client, stale: bool)
      requires Valid() && c in list.nodes
      modifies this, list, list.nodes
      ensures Valid() && Snapshot() == Step(old(Snapshot()), Leaves(c.fd, stale))
    {
      ghost var k :| 0 <= k < |list.nodes| && list.nodes[k] == c;
      assert IsConnected(Snapshot(), c.fd) by {
        assert Seats(list.nodes)[k].fd == c.fd;
      }
      HangUpEndsSession(Snapshot(), c.fd, stale);
      if phase != WaitClients {
        EndSession(c);
      } else if stale {
        Message(c);
      }
    }

    /** Both clients are marked, whoever hung up, so nobody stays on the list. */
    method EndSession(c: Client)
      requires Valid() && c in list.nodes && phase != WaitClients
      modifies this, list, list.nodes
      ensures Valid() && Snapshot() == old(Snapshot()).(phase := Exit, seats := [], actives := 0)
    {
      c.status := Inactive;
      phase := Exit;
      if c.fd == answererfd {
        asker.status := Inactive;
      } else {
        answerer.status := Inactive;
      }
      assert forall k | 0 <= k < |list.nodes| :: list.nodes[k].status == Inactive;
      list.RemoveInactives();
    }
  }
}
