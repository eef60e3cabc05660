/** The single-threaded question and answer server: a state, two clients and a turn. */
module TurnServer {

  datatype Phase = WaitClients | WaitAsker | WaitAnswerer | Exit

  /** One call of send. */
  datatype Send = Send(to: nat, text: string)

  /** The server's variables and what it has sent. No descriptor of a client is 0. */
  datatype Server = Server(phase: Phase, asker: nat, answerer: nat, actives: nat, sent: seq<Send>)

  /** A message and the client it comes from. */
  datatype Said = Said(fd: nat, bytes: string)

  datatype Event = Connect(fd: nat) | Message(said: Said) | HangUp(fd: nat)

  const INITIAL := Server(WaitClients, 0, 0, 0, [])

  const PROMPT := "Your command: "
  const AWAIT_ANSWERER := "Awaiting answerer...\n"
  const AWAIT_QUESTION := "Awaiting question...\n"
  const MAY_ASK := "You may now ask a question: \n"
  const MAY_ASK_AGAIN := "You may now ask another question: \n"
  const PATIENCE := "Patience please\n"
  const QUESTION := "Question: "
  const ANSWER := "Answer: "
  const LEFT := "The other party has left the conversation\n"

  /** The C string at the start of the bytes read. */
  function Text(bytes: string): string {
    if bytes == [] || bytes[0] == '\0' then [] else [bytes[0]] + Text(bytes[1..])
  }

  function Accept(s: Server, fd: nat): Server {
    var greeted := s.sent + [Send(fd, PROMPT)];
    if s.actives == 0 then
      Server(WaitClients, fd, s.answerer, s.actives + 1, greeted + [Send(fd, AWAIT_ANSWERER)])
    else
      Server(WaitAsker, s.asker, fd, s.actives + 1,
             greeted + [Send(fd, AWAIT_QUESTION), Send(s.asker, MAY_ASK)])
  }

  /** A message, or an end of file that is not taken for a hang-up. */
  function Hear(s: Server, fd: nat, text: string): Server {
    if fd == s.answerer then
      if s.phase == WaitAsker then s.(sent := s.sent + [Send(fd, PATIENCE)])
      else s.(phase := WaitAsker,
              sent := s.sent + [Send(s.asker, ANSWER), Send(s.asker, text),
                                Send(s.asker, MAY_ASK_AGAIN), Send(s.answerer, AWAIT_QUESTION)])
    else if fd == s.asker then
      if s.phase == WaitClients || s.phase == WaitAnswerer then s.(sent := s.sent + [Send(fd, PATIENCE)])
      else s.(phase := WaitAnswerer, sent := s.sent + [Send(s.answerer, QUESTION), Send(s.answerer, text)])
    else s
  }

  function Leave(s: Server, fd: nat): Server {
    if s.phase == WaitClients then Hear(s, fd, "")
    else s.(phase := Exit, sent := s.sent + [Send(if fd == s.answerer then s.asker else s.answerer, LEFT)])
  }

  function Step(s: Server, event: Event): Server {
    match event
    case Connect(fd) => Accept(s, fd)
    case Message(said) => Hear(s, said.fd, Text(said.bytes))
    case HangUp(fd) => Leave(s, fd)
  }

  function Run(s: Server, events: seq<Event>): Server
    decreases |events|
  {
    if events == [] then s else Run(Step(s, events[0]), events[1..])
  }

  // ---------------------------------------------------------------- the event loop in place

  /** The size of the buffer that a message is read into. */
  const BUFFER := 100

  /** The server process with its buffer. */
  class Process {
    var phase: Phase
    var asker: nat
    var answerer: nat
    var actives: nat
    var sent: seq<Send>
    const buf: array<char>

    constructor ()
      ensures Snapshot() == INITIAL && buf.Length == BUFFER && fresh(buf)
    {
      phase, asker, answerer, actives, sent := WaitClients, 0, 0, 0, [];
      buf := new char[BUFFER];
    }

    function Snapshot(): Server
      reads this
    {
      Server(phase, asker, answerer, actives, sent)
    }

    /** A send. */
    method Tell(fd: nat, text: string)
      modifies this
      ensures Snapshot() == old(Snapshot()).(sent := old(sent) + [Send(fd, text)])
    {
      sent := sent + [Send(fd, text)];
    }

    /** read and strlen. A message that fills the buffer would have its NUL written
        behind the end. */
    method Receive(bytes: string) returns (text: string)
      requires buf.Length == BUFFER && |bytes| < BUFFER
      modifies buf
      ensures text == Text(bytes)
    {
      var k := 0;
      while k < |bytes|
        invariant 0 <= k <= |bytes| && buf[..k] == bytes[..k]
      {
        buf[k] := bytes[k];
        k := k + 1;
      }
      buf[k] := '\0';
      text := StringAt(bytes);
    }

    /** strlen of what was read, and the text. */
    method StringAt(ghost bytes: string) returns (text: string)
      requires |bytes| < buf.Length && buf[..|bytes|] == bytes && buf[|bytes|] == '\0'
      ensures text == Text(bytes)
    {
      var length := 0;
      while buf[length] != '\0'
        invariant length <= |bytes| && Text(bytes) == bytes[..length] + Text(bytes[length..])
        decreases |bytes| - length
      {
        assert buf[length] == bytes[length];
        assert bytes[length..][1..] == bytes[length + 1..];
        length := length + 1;
      }
      text := buf[..length];
    }

    method Handle(event: Event)
      requires buf.Length == BUFFER && (event.Message? ==> |event.said.bytes| < BUFFER)
      modifies this, buf
      ensures Snapshot() == Step(old(Snapshot()), event)
    {
      match event
      case Connect(fd) => HandleConnect(fd);
      case Message(said) =>
        var text := Receive(said.bytes);
        HandleMessage(said.fd, text);
      case HangUp(fd) =>
        if phase == WaitClients {
          HandleMessage(fd, "");
        } else {
          Tell(if fd == answerer then asker else answerer, LEFT);
          phase := Exit;
        }
    }

    method HandleConnect(fd: nat)
      modifies this
      ensures Snapshot() == Accept(old(Snapshot()), fd)
    {
      Tell(fd, PROMPT);
      if actives == 0 {
        Tell(fd, AWAIT_ANSWERER);
        phase := WaitClients;
        asker := fd;
      } else {
        Tell(fd, AWAIT_QUESTION);
        Tell(asker, MAY_ASK);
        phase := WaitAsker;
        answerer := fd;
      }
      actives := actives + 1;
    }

    method HandleMessage(fd: nat, text: string)
      modifies this
      ensures Snapshot() == Hear(old(Snapshot()), fd, text)
    {
      if fd == answerer {
        if phase == WaitAsker {
          Tell(fd, PATIENCE);
        } else {
          Tell(asker, ANSWER);
          Tell(asker, text);
          Tell(asker, MAY_ASK_AGAIN);
          Tell(answerer, AWAIT_QUESTION);
          phase := WaitAsker;
        }
      } else if fd == asker {
        if phase == WaitClients || phase == WaitAnswerer {
          Tell(fd, PATIENCE);
        } else {
          Tell(answerer, QUESTION);
          Tell(answerer, text);
          phase := WaitAnswerer;
        }
      }
    }
  }

  // ---------------------------------------------------------------- what the clients see

  /** What is said across the table, in order. */
  datatype Utterance = Asked(to: nat, text: string) | Answered(to: nat, text: string)

  /** Reads the log: the text after a heading is an utterance. */
  function Dialogue(sent: seq<Send>): seq<Utterance> {
    if sent == [] then []
    else if |sent| > 1 && sent[0].text == QUESTION then [Asked(sent[1].to, sent[1].text)] + Dialogue(sent[2..])
    else if |sent| > 1 && sent[0].text == ANSWER then [Answered(sent[1].to, sent[1].text)] + Dialogue(sent[2..])
    else Dialogue(sent[1..])
  }

  /** Who was asked to be patient, in order; a text after a heading does not count. */
  function Reminded(sent: seq<Send>): seq<nat> {
    if sent == [] then []
    else if |sent| > 1 && (sent[0].text == QUESTION || sent[0].text == ANSWER) then Reminded(sent[2..])
    else if sent[0].text == PATIENCE then [sent[0].to] + Reminded(sent[1..])
    else Reminded(sent[1..])
  }

  /** The messages that are in turn, if it is this one's turn: the first of his, then the
      first of the other one's after that, and so on. */
  function InTurn(messages: seq<Said>, turn: nat, other: nat): seq<Said> {
    if messages == [] then []
    else if messages[0].fd == turn then [messages[0]] + InTurn(messages[1..], other, turn)
    else InTurn(messages[1..], turn, other)
  }

  /** The senders of the others. */
  function OutOfTurn(messages: seq<Said>, turn: nat, other: nat): seq<nat> {
    if messages == [] then []
    else if messages[0].fd == turn then OutOfTurn(messages[1..], other, turn)
    else [messages[0].fd] + OutOfTurn(messages[1..], turn, other)
  }

  /** What a message is to the one who gets it. */
  function Utter(m: Said, asker: nat, answerer: nat): Utterance {
    if m.fd == asker then Asked(answerer, Text(m.bytes)) else Answered(asker, Text(m.bytes))
  }

  function Utterances(messages: seq<Said>, asker: nat, answerer: nat): (u: seq<Utterance>)
    ensures |u| == |messages|
  {
    if messages == [] then []
    else [Utter(messages[0], asker, answerer)] + Utterances(messages[1..], asker, answerer)
  }

  /** The log ends between two handlers: no heading is waiting for its text. */
  predicate Complete(sent: seq<Send>) {
    if sent == [] then true
    else if sent[0].text == QUESTION || sent[0].text == ANSWER then |sent| > 1 && Complete(sent[2..])
    else Complete(sent[1..])
  }

  lemma {:induction false} ReadOn(sent: seq<Send>, more: seq<Send>)
    requires Complete(sent)
    ensures Dialogue(sent + more) == Dialogue(sent) + Dialogue(more)
    ensures Reminded(sent + more) == Reminded(sent) + Reminded(more)
    ensures Complete(sent + more) == Complete(more)
  {
    if sent == [] {
      assert sent + more == more;
    } else if sent[0].text == QUESTION || sent[0].text == ANSWER {
      assert (sent + more)[2..] == sent[2..] + more;
      ReadOn(sent[2..], more);
    } else {
      assert (sent + more)[1..] == sent[1..] + more;
      ReadOn(sent[1..], more);
    }
  }

  // ---------------------------------------------------------------- one message

  ghost predicate Seated(s: Server, asker: nat, answerer: nat) {
    && asker != answerer && s.asker == asker && s.answerer == answerer
    && (s.phase == WaitAsker || s.phase == WaitAnswerer) && Complete(s.sent)
  }

  function Turn(s: Server): nat {
    if s.phase == WaitAsker then s.asker else s.answerer
  }

  function Other(s: Server): nat {
    if s.phase == WaitAsker then s.answerer else s.asker
  }

  /** Only the two headings are headings. */
  lemma NoHeadings()
    ensures PATIENCE != QUESTION && PATIENCE != ANSWER
    ensures MAY_ASK_AGAIN != QUESTION && MAY_ASK_AGAIN != ANSWER && MAY_ASK_AGAIN != PATIENCE
    ensures AWAIT_QUESTION != QUESTION && AWAIT_QUESTION != ANSWER && AWAIT_QUESTION != PATIENCE
    ensures AWAIT_ANSWERER != QUESTION && AWAIT_ANSWERER != ANSWER && AWAIT_ANSWERER != PATIENCE
    ensures MAY_ASK != QUESTION && MAY_ASK != ANSWER && MAY_ASK != PATIENCE
    ensures PROMPT != QUESTION && PROMPT != ANSWER && PROMPT != PATIENCE
    ensures LEFT != QUESTION && LEFT != ANSWER && LEFT != PATIENCE
    ensures QUESTION != ANSWER
  {
    assert QUESTION[0] == 'Q' && ANSWER[1] == 'n' && PATIENCE[0] == 'P';
    assert MAY_ASK_AGAIN[0] == 'Y' && MAY_ASK[0] == 'Y' && PROMPT[0] == 'Y' && LEFT[0] == 'T';
    assert AWAIT_ANSWERER[1] == 'w' && AWAIT_QUESTION[1] == 'w';
  }

  predicate Plain(text: string) {
    text != QUESTION && text != ANSWER && text != PATIENCE
  }

  /** Texts that are no headings say nothing. */
  lemma {:induction false} NothingSaid(more: seq<Send>)
    requires forall k | 0 <= k < |more| :: Plain(more[k].text)
    ensures Complete(more) && Dialogue(more) == [] && Reminded(more) == []
  {
    if more != [] {
      assert Plain(more[0].text);
      NothingSaid(more[1..]);
    }
  }

  /** Out of turn. */
  lemma Reminder(s: Server, fd: nat)
    requires Complete(s.sent)
    ensures var sent := s.sent + [Send(fd, PATIENCE)];
      Complete(sent) && Dialogue(sent) == Dialogue(s.sent) && Reminded(sent) == Reminded(s.sent) + [fd]
  {
    NoHeadings();
    var more := [Send(fd, PATIENCE)];
    ReadOn(s.sent, more);
    NothingSaid(more[1..]);
  }

  lemma Question(s: Server, to: nat, text: string)
    requires Complete(s.sent)
    ensures var sent := s.sent + [Send(to, QUESTION), Send(to, text)];
      && Complete(sent) && Reminded(sent) == Reminded(s.sent)
      && Dialogue(sent) == Dialogue(s.sent) + [Asked(to, text)]
  {
    var more := [Send(to, QUESTION), Send(to, text)];
    ReadOn(s.sent, more);
    NothingSaid(more[2..]);
  }

  lemma Answer(s: Server, to: nat, from: nat, text: string)
    requires Complete(s.sent)
    ensures var sent := s.sent + [Send(to, ANSWER), Send(to, text),
                                  Send(to, MAY_ASK_AGAIN), Send(from, AWAIT_QUESTION)];
      && Complete(sent) && Reminded(sent) == Reminded(s.sent)
      && Dialogue(sent) == Dialogue(s.sent) + [Answered(to, text)]
  {
    NoHeadings();
    var more := [Send(to, ANSWER), Send(to, text), Send(to, MAY_ASK_AGAIN), Send(from, AWAIT_QUESTION)];
    ReadOn(s.sent, more);
    NothingSaid(more[2..]);
  }

  /** A message of either client: in turn it is passed on and the turn changes, out of
      turn it is answered with the reminder. */
  lemma OneMessage(s: Server, asker: nat, answerer: nat, fd: nat, text: string)
    requires Seated(s, asker, answerer) && (fd == asker || fd == answerer)
    ensures var r := Hear(s, fd, text);
      && Seated(r, asker, answerer)
      && (fd == Turn(s) ==>
            && r.phase != s.phase && Reminded(r.sent) == Reminded(s.sent)
            && Dialogue(r.sent)
               == Dialogue(s.sent) + [if fd == asker then Asked(answerer, text) else Answered(asker, text)])
      && (fd != Turn(s) ==>
            && r.phase == s.phase && Reminded(r.sent) == Reminded(s.sent) + [fd]
            && Dialogue(r.sent) == Dialogue(s.sent))
  {
    if fd != Turn(s) {
      Reminder(s, fd);
    } else if fd == asker {
      Question(s, answerer, text);
    } else {
      Answer(s, asker, answerer, text);
    }
  }

  // ---------------------------------------------------------------- whole conversations

  /** These messages, one after the other. */
  function Messages(said: seq<Said>): (events: seq<Event>)
    ensures |events| == |said|
  {
    if said == [] then [] else [Message(said[0])] + Messages(said[1..])
  }

  predicate From(said: seq<Said>, asker: nat, answerer: nat) {
    forall k | 0 <= k < |said| :: said[k].fd == asker || said[k].fd == answerer
  }

  /** What was said between `s` and `r`. */
  ghost predicate Went(s: Server, said: seq<Said>, asker: nat, answerer: nat, r: Server) {
    var turn, other := Turn(s), Other(s);
    && Seated(r, asker, answerer)
    && Dialogue(r.sent) == Dialogue(s.sent) + Utterances(InTurn(said, turn, other), asker, answerer)
    && Reminded(r.sent) == Reminded(s.sent) + OutOfTurn(said, turn, other)
    && (r.phase == s.phase <==> |InTurn(said, turn, other)| % 2 == 0)
  }

  /** What one more message adds to the account of a conversation. */
  lemma AccountOf(said: seq<Said>, turn: nat, other: nat, asker: nat, answerer: nat)
    requires said != []
    ensures said[0].fd == turn ==>
              var rest := InTurn(said[1..], other, turn);
              && Utterances(InTurn(said, turn, other), asker, answerer)
                 == [Utter(said[0], asker, answerer)] + Utterances(rest, asker, answerer)
              && |InTurn(said, turn, other)| == 1 + |rest|
              && OutOfTurn(said, turn, other) == OutOfTurn(said[1..], other, turn)
    ensures said[0].fd != turn ==>
              && InTurn(said, turn, other) == InTurn(said[1..], turn, other)
              && OutOfTurn(said, turn, other) == [said[0].fd] + OutOfTurn(said[1..], turn, other)
  {
    if said[0].fd == turn {
      var rest := InTurn(said[1..], other, turn);
      assert ([said[0]] + rest)[1..] == rest;
    }
  }

  /** A message in turn, and what went on after it. */
  lemma WentOnInTurn(s: Server, t: Server, said: seq<Said>, asker: nat, answerer: nat, r: Server)
    requires said != [] && said[0].fd == Turn(s) && Turn(t) == Other(s) && Other(t) == Turn(s)
    requires t.phase != s.phase && (r.phase == s.phase || r.phase == t.phase)
    requires Reminded(t.sent) == Reminded(s.sent)
    requires Dialogue(t.sent) == Dialogue(s.sent) + [Utter(said[0], asker, answerer)]
    requires Went(t, said[1..], asker, answerer, r)
    ensures Went(s, said, asker, answerer, r)
  {
    var turn, other := Turn(s), Other(s);
    AccountOf(said, turn, other, asker, answerer);
    var now, later := [Utter(said[0], asker, answerer)], Utterances(InTurn(said[1..], other, turn), asker, answerer);
    assert Dialogue(s.sent) + (now + later) == Dialogue(s.sent) + now + later;
  }

  lemma WentOnOutOfTurn(s: Server, t: Server, said: seq<Said>, asker: nat, answerer: nat, r: Server)
    requires said != [] && said[0].fd != Turn(s) && Turn(t) == Turn(s) && Other(t) == Other(s)
    requires t.phase == s.phase && Dialogue(t.sent) == Dialogue(s.sent)
    requires Reminded(t.sent) == Reminded(s.sent) + [said[0].fd]
    requires Went(t, said[1..], asker, answerer, r)
    ensures Went(s, said, asker, answerer, r)
  {
    var turn, other := Turn(s), Other(s);
    AccountOf(said, turn, other, asker, answerer);
    var now, later := [said[0].fd], OutOfTurn(said[1..], turn, other);
    assert Reminded(s.sent) + (now + later) == Reminded(s.sent) + now + later;
  }

  lemma WentOn(s: Server, said: seq<Said>, asker: nat, answerer: nat, r: Server)
    requires Seated(s, asker, answerer) && said != [] && From(said, asker, answerer)
    requires Went(Hear(s, said[0].fd, Text(said[0].bytes)), said[1..], asker, answerer, r)
    ensures Went(s, said, asker, answerer, r)
  {
    var t := Hear(s, said[0].fd, Text(said[0].bytes));
    OneMessage(s, asker, answerer, said[0].fd, Text(said[0].bytes));
    if said[0].fd == Turn(s) {
      WentOnInTurn(s, t, said, asker, answerer, r);
    } else {
      WentOnOutOfTurn(s, t, said, asker, answerer, r);
    }
  }

  lemma {:induction false} Conversation(s: Server, said: seq<Said>, asker: nat, answerer: nat)
    requires Seated(s, asker, answerer) && From(said, asker, answerer)
    ensures Went(s, said, asker, answerer, Run(s, Messages(said)))
    decreases |said|
  {
    if said != [] {
      OneMessage(s, asker, answerer, said[0].fd, Text(said[0].bytes));
      var t := Hear(s, said[0].fd, Text(said[0].bytes));
      assert Messages(said)[1..] == Messages(said[1..]);
      Conversation(t, said[1..], asker, answerer);
      WentOn(s, said, asker, answerer, Run(t, Messages(said[1..])));
    }
  }

  lemma {:induction false} RunsOn(s: Server, first: seq<Event>, second: seq<Event>)
    ensures Run(s, first + second) == Run(Run(s, first), second)
    decreases |first|
  {
    if first == [] {
      assert first + second == second;
    } else {
      assert (first + second)[1..] == first[1..] + second;
      RunsOn(Step(s, first[0]), first[1..], second);
    }
  }

  /** The first client alone: every message is answered with the reminder. */
  ghost predicate Alone(s: Server, asker: nat, reminders: nat) {
    && s.phase == WaitClients && s.asker == asker && s.answerer == 0 && s.actives == 1
    && Complete(s.sent) && Dialogue(s.sent) == []
    && Reminded(s.sent) == seq(reminders, _ => asker)
  }

  lemma FirstClient(asker: nat)
    ensures Alone(Step(INITIAL, Connect(asker)), asker, 0)
  {
    NoHeadings();
    NothingSaid(Step(INITIAL, Connect(asker)).sent);
  }

  lemma {:induction false} TalksAlone(s: Server, said: seq<Said>, asker: nat, reminders: nat)
    requires asker != 0 && Alone(s, asker, reminders) && From(said, asker, asker)
    ensures Alone(Run(s, Messages(said)), asker, reminders + |said|)
    decreases |said|
  {
    if said != [] {
      var t := Hear(s, said[0].fd, Text(said[0].bytes));
      Reminder(s, asker);
      assert seq(reminders, _ => asker) + [asker] == seq(reminders + 1, _ => asker);
      assert Messages(said)[1..] == Messages(said[1..]);
      TalksAlone(t, said[1..], asker, reminders + 1);
    }
  }

  lemma SecondClient(s: Server, asker: nat, answerer: nat, reminders: nat)
    requires asker != answerer && Alone(s, asker, reminders)
    ensures var r := Step(s, Connect(answerer));
      && Seated(r, asker, answerer) && r.phase == WaitAsker
      && Dialogue(r.sent) == [] && Reminded(r.sent) == Reminded(s.sent)
  {
    NoHeadings();
    var more := [Send(answerer, PROMPT)] + [Send(answerer, AWAIT_QUESTION), Send(asker, MAY_ASK)];
    NothingSaid(more);
    ReadOn(s.sent, more);
    assert Step(s, Connect(answerer)).sent == s.sent + more;
  }

  /** A whole run with two clients: first the asker alone, then both. */
  function TwoClients(asker: nat, early: seq<Said>, answerer: nat, said: seq<Said>): seq<Event> {
    [Connect(asker)] + Messages(early) + [Connect(answerer)] + Messages(said)
  }

  /** What is passed on is exactly the messages in turn, in order and with their own text;
      each other message brings its sender one reminder. */
  lemma TurnDiscipline(asker: nat, early: seq<Said>, answerer: nat, said: seq<Said>)
    requires asker != 0 && answerer != 0 && asker != answerer
    requires From(early, asker, asker) && From(said, asker, answerer)
    ensures var r := Run(INITIAL, TwoClients(asker, early, answerer, said));
      var accepted := InTurn(said, asker, answerer);
      && Seated(r, asker, answerer)
      && Dialogue(r.sent) == Utterances(accepted, asker, answerer)
      && Reminded(r.sent) == seq(|early|, _ => asker) + OutOfTurn(said, asker, answerer)
      && (r.phase == WaitAsker <==> |accepted| % 2 == 0)
  {
    var first, second := [Connect(asker)], [Connect(answerer)];
    var s1 := Step(INITIAL, Connect(asker));
    var s2 := Run(s1, Messages(early));
    var s3 := Step(s2, Connect(answerer));
    FirstClient(asker);
    TalksAlone(s1, early, asker, 0);
    SecondClient(s2, asker, answerer, |early|);
    Conversation(s3, said, asker, answerer);
    RunsOn(INITIAL, first + Messages(early) + second, Messages(said));
    RunsOn(INITIAL, first + Messages(early), second);
    RunsOn(INITIAL, first, Messages(early));
    assert Run(INITIAL, first) == s1 && Run(s2, second) == s3;
  }

  // ---------------------------------------------------------------- what each client receives

  /** The texts sent to one client, in order. */
  function Received(sent: seq<Send>, fd: nat): seq<string> {
    if sent == [] then []
    else (if sent[0].to == fd then [sent[0].text] else []) + Received(sent[1..], fd)
  }

  lemma {:induction false} ReceivedOn(sent: seq<Send>, more: seq<Send>, fd: nat)
    ensures Received(sent + more, fd) == Received(sent, fd) + Received(more, fd)
  {
    if sent == [] {
      assert sent + more == more;
    } else {
      assert (sent + more)[1..] == sent[1..] + more;
      ReceivedOn(sent[1..], more, fd);
    }
  }

  /** What the asker receives while both talk: his answers, or the reminder. After a
      message of his it is the answerer's turn, whether it was accepted or not. */
  function AskerHears(said: seq<Said>, asker: nat, askersTurn: bool): seq<string> {
    if said == [] then []
    else if said[0].fd == asker then
      (if askersTurn then [] else [PATIENCE]) + AskerHears(said[1..], asker, false)
    else
      (if askersTurn then [] else [ANSWER, Text(said[0].bytes), MAY_ASK_AGAIN]) + AskerHears(said[1..], asker, true)
  }

  /** What the answerer receives: the questions, a notice after each answer, or the
      reminder. */
  function AnswererHears(said: seq<Said>, answerer: nat, askersTurn: bool): seq<string> {
    if said == [] then []
    else if said[0].fd == answerer then
      [if askersTurn then PATIENCE else AWAIT_QUESTION] + AnswererHears(said[1..], answerer, true)
    else
      (if askersTurn then [QUESTION, Text(said[0].bytes)] else []) + AnswererHears(said[1..], answerer, false)
  }

  /** Every heading goes to the client who gets the text after it: a question to the
      answerer, an answer to the asker. */
  predicate WellAddressed(sent: seq<Send>, asker: nat, answerer: nat) {
    if sent == [] then true
    else if sent[0].text == QUESTION || sent[0].text == ANSWER then
      && |sent| > 1 && sent[1].to == sent[0].to
      && sent[0].to == (if sent[0].text == QUESTION then answerer else asker)
      && WellAddressed(sent[2..], asker, answerer)
    else WellAddressed(sent[1..], asker, answerer)
  }

  lemma {:induction false} AddressedOn(sent: seq<Send>, more: seq<Send>, asker: nat, answerer: nat)
    requires WellAddressed(sent, asker, answerer) && WellAddressed(more, asker, answerer)
    ensures WellAddressed(sent + more, asker, answerer)
  {
    if sent == [] {
      assert sent + more == more;
    } else if sent[0].text == QUESTION || sent[0].text == ANSWER {
      assert (sent + more)[2..] == sent[2..] + more;
      AddressedOn(sent[2..], more, asker, answerer);
    } else {
      assert (sent + more)[1..] == sent[1..] + more;
      AddressedOn(sent[1..], more, asker, answerer);
    }
  }

  lemma {:induction false} PlainAddressed(more: seq<Send>, asker: nat, answerer: nat)
    requires forall k | 0 <= k < |more| :: Plain(more[k].text)
    ensures WellAddressed(more, asker, answerer)
  {
    if more != [] {
      assert Plain(more[0].text);
      PlainAddressed(more[1..], asker, answerer);
    }
  }

  /** What one handler sends, told apart by who it goes to. */
  ghost predicate Delivers(sent: seq<Send>, more: seq<Send>, asker: nat, answerer: nat,
                           toAsker: seq<string>, toAnswerer: seq<string>) {
    && (WellAddressed(sent, asker, answerer) ==> WellAddressed(sent + more, asker, answerer))
    && Received(sent + more, asker) == Received(sent, asker) + toAsker
    && Received(sent + more, answerer) == Received(sent, answerer) + toAnswerer
    && forall fd: nat | fd != asker && fd != answerer :: Received(sent + more, fd) == Received(sent, fd)
  }

  lemma DeliversIf(sent: seq<Send>, more: seq<Send>, asker: nat, answerer: nat,
                   toAsker: seq<string>, toAnswerer: seq<string>)
    requires WellAddressed(more, asker, answerer)
    requires Received(more, asker) == toAsker && Received(more, answerer) == toAnswerer
    requires forall fd: nat | fd != asker && fd != answerer :: Received(more, fd) == []
    ensures Delivers(sent, more, asker, answerer, toAsker, toAnswerer)
  {
    if WellAddressed(sent, asker, answerer) {
      AddressedOn(sent, more, asker, answerer);
    }
    forall fd: nat
      ensures Received(sent + more, fd) == Received(sent, fd) + Received(more, fd)
    {
      ReceivedOn(sent, more, fd);
    }
  }

  lemma ReceivedOne(fd: nat, to: nat, text: string)
    ensures Received([Send(to, text)], fd) == if fd == to then [text] else []
  {
  }

  lemma ReceivedTwo(fd: nat, first: Send, second: Send)
    ensures Received([first, second], fd)
         == (if first.to == fd then [first.text] else []) + (if second.to == fd then [second.text] else [])
  {
    assert [first, second][1..] == [second];
    ReceivedOne(fd, second.to, second.text);
  }

  lemma RemindsOne(sent: seq<Send>, fd: nat, asker: nat, answerer: nat)
    requires asker != answerer && (fd == asker || fd == answerer)
    ensures Delivers(sent, [Send(fd, PATIENCE)], asker, answerer,
                     if fd == asker then [PATIENCE] else [], if fd == asker then [] else [PATIENCE])
  {
    NoHeadings();
    var more := [Send(fd, PATIENCE)];
    assert WellAddressed(more[1..], asker, answerer);
    DeliversIf(sent, more, asker, answerer,
               if fd == asker then [PATIENCE] else [], if fd == asker then [] else [PATIENCE]);
  }

  lemma DeliversQuestion(sent: seq<Send>, text: string, asker: nat, answerer: nat)
    requires asker != answerer
    ensures Delivers(sent, [Send(answerer, QUESTION), Send(answerer, text)], asker, answerer, [], [QUESTION, text])
  {
    var more := [Send(answerer, QUESTION), Send(answerer, text)];
    forall fd: nat
      ensures Received(more, fd) == if fd == answerer then [QUESTION, text] else []
    {
      ReceivedTwo(fd, more[0], more[1]);
    }
    DeliversIf(sent, more, asker, answerer, [], [QUESTION, text]);
  }

  lemma DeliversAnswer(sent: seq<Send>, text: string, asker: nat, answerer: nat)
    requires asker != answerer
    ensures Delivers(sent, [Send(asker, ANSWER), Send(asker, text), Send(asker, MAY_ASK_AGAIN),
                            Send(answerer, AWAIT_QUESTION)],
                     asker, answerer, [ANSWER, text, MAY_ASK_AGAIN], [AWAIT_QUESTION])
  {
    NoHeadings();
    var head := [Send(asker, ANSWER), Send(asker, text)];
    var tail := [Send(asker, MAY_ASK_AGAIN), Send(answerer, AWAIT_QUESTION)];
    var more := [Send(asker, ANSWER), Send(asker, text), Send(asker, MAY_ASK_AGAIN), Send(answerer, AWAIT_QUESTION)];
    assert more == head + tail && more[2..] == tail;
    forall fd: nat
      ensures Received(more, fd)
           == (if fd == asker then [ANSWER, text, MAY_ASK_AGAIN] else if fd == answerer then [AWAIT_QUESTION] else [])
    {
      ReceivedOn(head, tail, fd);
      ReceivedTwo(fd, head[0], head[1]);
      ReceivedTwo(fd, tail[0], tail[1]);
    }
    PlainAddressed(tail, asker, answerer);
    DeliversIf(sent, more, asker, answerer, [ANSWER, text, MAY_ASK_AGAIN], [AWAIT_QUESTION]);
  }

  /** What one message adds to what each of the two receives. */
  lemma HeardOf(s: Server, asker: nat, answerer: nat, said: Said)
    requires Seated(s, asker, answerer) && (said.fd == asker || said.fd == answerer)
    ensures var r, turn := Hear(s, said.fd, Text(said.bytes)), s.phase == WaitAsker;
      && (WellAddressed(s.sent, asker, answerer) ==> WellAddressed(r.sent, asker, answerer))
      && Received(r.sent, asker) == Received(s.sent, asker) + AskerHears([said], asker, turn)
      && Received(r.sent, answerer) == Received(s.sent, answerer) + AnswererHears([said], answerer, turn)
      && (forall fd: nat | fd != asker && fd != answerer :: Received(r.sent, fd) == Received(s.sent, fd))
      && (r.phase == WaitAsker <==> said.fd == answerer)
      && r.actives == s.actives
  {
    var text := Text(said.bytes);
    if said.fd != Turn(s) {
      RemindsOne(s.sent, said.fd, asker, answerer);
    } else if said.fd == asker {
      DeliversQuestion(s.sent, text, asker, answerer);
    } else {
      DeliversAnswer(s.sent, text, asker, answerer);
    }
  }

  /** What is received between `s` and `r`. */
  ghost predicate Heard(s: Server, said: seq<Said>, asker: nat, answerer: nat, r: Server) {
    var turn := s.phase == WaitAsker;
    && (WellAddressed(s.sent, asker, answerer) ==> WellAddressed(r.sent, asker, answerer))
    && Received(r.sent, asker) == Received(s.sent, asker) + AskerHears(said, asker, turn)
    && Received(r.sent, answerer) == Received(s.sent, answerer) + AnswererHears(said, answerer, turn)
    && (forall fd: nat | fd != asker && fd != answerer :: Received(r.sent, fd) == Received(s.sent, fd))
    && r.actives == s.actives
  }

  lemma FirstHeard(first: Said, rest: seq<Said>, asker: nat, answerer: nat, turn: bool)
    requires asker != answerer && (first.fd == asker || first.fd == answerer)
    ensures AskerHears([first] + rest, asker, turn)
         == AskerHears([first], asker, turn) + AskerHears(rest, asker, first.fd == answerer)
    ensures AnswererHears([first] + rest, answerer, turn)
         == AnswererHears([first], answerer, turn) + AnswererHears(rest, answerer, first.fd == answerer)
  {
    assert ([first] + rest)[1..] == rest && [first][1..] == [];
  }

  lemma Associate(a: seq<string>, b: seq<string>, c: seq<string>)
    ensures a + b + c == a + (b + c)
  {
  }

  lemma HeardOn(s: Server, t: Server, first: Said, rest: seq<Said>, asker: nat, answerer: nat, r: Server)
    requires asker != answerer && (first.fd == asker || first.fd == answerer)
    requires Heard(s, [first], asker, answerer, t) && Heard(t, rest, asker, answerer, r)
    requires t.phase == WaitAsker <==> first.fd == answerer
    ensures Heard(s, [first] + rest, asker, answerer, r)
  {
    var turn, next := s.phase == WaitAsker, first.fd == answerer;
    FirstHeard(first, rest, asker, answerer, turn);
    Associate(Received(s.sent, asker), AskerHears([first], asker, turn), AskerHears(rest, asker, next));
    Associate(Received(s.sent, answerer), AnswererHears([first], answerer, turn), AnswererHears(rest, answerer, next));
  }

  lemma {:induction false} BothHear(s: Server, said: seq<Said>, asker: nat, answerer: nat)
    requires Seated(s, asker, answerer) && From(said, asker, answerer)
    ensures Heard(s, said, asker, answerer, Run(s, Messages(said)))
    decreases |said|
  {
    if said != [] {
      var t := Hear(s, said[0].fd, Text(said[0].bytes));
      OneMessage(s, asker, answerer, said[0].fd, Text(said[0].bytes));
      HeardOf(s, asker, answerer, said[0]);
      assert Messages(said)[1..] == Messages(said[1..]);
      BothHear(t, said[1..], asker, answerer);
      HeardOn(s, t, said[0], said[1..], asker, answerer, Run(t, Messages(said[1..])));
      assert [said[0]] + said[1..] == said;
    }
  }

  /** What the first client has received while he is alone; nobody else has anything. */
  ghost predicate HeardAlone(s: Server, asker: nat, reminders: nat) {
    && Received(s.sent, asker) == [PROMPT, AWAIT_ANSWERER] + seq(reminders, _ => PATIENCE)
    && (forall fd: nat | fd != asker :: Received(s.sent, fd) == [])
    && (forall k | 0 <= k < |s.sent| :: Plain(s.sent[k].text) || s.sent[k].text == PATIENCE)
  }

  lemma AloneAddressed(sent: seq<Send>, asker: nat, answerer: nat)
    requires forall k | 0 <= k < |sent| :: Plain(sent[k].text) || sent[k].text == PATIENCE
    ensures WellAddressed(sent, asker, answerer)
    decreases |sent|
  {
    NoHeadings();
    if sent != [] {
      assert sent[0].text != QUESTION && sent[0].text != ANSWER;
      AloneAddressed(sent[1..], asker, answerer);
    }
  }

  lemma FirstHears(asker: nat)
    ensures HeardAlone(Step(INITIAL, Connect(asker)), asker, 0)
  {
    NoHeadings();
    var sent := Step(INITIAL, Connect(asker)).sent;
    assert sent == [Send(asker, PROMPT), Send(asker, AWAIT_ANSWERER)];
    forall fd: nat
      ensures Received(sent, fd) == if fd == asker then [PROMPT, AWAIT_ANSWERER] else []
    {
      ReceivedTwo(fd, sent[0], sent[1]);
    }
  }

  lemma OneMoreReminder(s: Server, asker: nat, reminders: nat)
    requires asker != 0 && Alone(s, asker, reminders) && HeardAlone(s, asker, reminders)
    ensures var t := s.(sent := s.sent + [Send(asker, PATIENCE)]);
      Alone(t, asker, reminders + 1) && HeardAlone(t, asker, reminders + 1)
  {
    Reminder(s, asker);
    assert seq(reminders, _ => asker) + [asker] == seq(reminders + 1, _ => asker);
    assert seq(reminders, _ => PATIENCE) + [PATIENCE] == seq(reminders + 1, _ => PATIENCE);
    forall fd: nat
      ensures Received(s.sent + [Send(asker, PATIENCE)], fd)
           == Received(s.sent, fd) + if fd == asker then [PATIENCE] else []
    {
      ReceivedOn(s.sent, [Send(asker, PATIENCE)], fd);
      ReceivedOne(fd, asker, PATIENCE);
    }
  }

  lemma {:induction false} HearsAlone(s: Server, said: seq<Said>, asker: nat, reminders: nat)
    requires asker != 0 && Alone(s, asker, reminders) && HeardAlone(s, asker, reminders) && From(said, asker, asker)
    ensures var r := Run(s, Messages(said));
      Alone(r, asker, reminders + |said|) && HeardAlone(r, asker, reminders + |said|)
    decreases |said|
  {
    if said != [] {
      OneMoreReminder(s, asker, reminders);
      assert Messages(said)[1..] == Messages(said[1..]);
      HearsAlone(Hear(s, said[0].fd, Text(said[0].bytes)), said[1..], asker, reminders + 1);
    }
  }

  lemma SecondHears(s: Server, asker: nat, answerer: nat, reminders: nat)
    requires asker != answerer && Alone(s, asker, reminders) && HeardAlone(s, asker, reminders)
    ensures var r := Step(s, Connect(answerer));
      && r.actives == 2 && WellAddressed(r.sent, asker, answerer)
      && Received(r.sent, asker) == [PROMPT, AWAIT_ANSWERER] + seq(reminders, _ => PATIENCE) + [MAY_ASK]
      && Received(r.sent, answerer) == [PROMPT, AWAIT_QUESTION]
      && forall fd: nat | fd != asker && fd != answerer :: Received(r.sent, fd) == []
  {
    NoHeadings();
    var head, tail := [Send(answerer, PROMPT)], [Send(answerer, AWAIT_QUESTION), Send(asker, MAY_ASK)];
    var more := head + tail;
    assert Step(s, Connect(answerer)).sent == s.sent + more;
    forall fd: nat
      ensures Received(more, fd)
           == if fd == asker then [MAY_ASK] else if fd == answerer then [PROMPT, AWAIT_QUESTION] else []
    {
      ReceivedOn(head, tail, fd);
      ReceivedOne(fd, answerer, PROMPT);
      ReceivedTwo(fd, tail[0], tail[1]);
    }
    PlainAddressed(more, asker, answerer);
    AloneAddressed(s.sent, asker, answerer);
    DeliversIf(s.sent, more, asker, answerer, [MAY_ASK], [PROMPT, AWAIT_QUESTION]);
  }

  /** What each client receives over a whole run with two clients, and that nobody else
      receives anything. */
  lemma InboxesOfEveryRun(asker: nat, early: seq<Said>, answerer: nat, said: seq<Said>)
    requires asker != 0 && answerer != 0 && asker != answerer
    requires From(early, asker, asker) && From(said, asker, answerer)
    ensures var r := Run(INITIAL, TwoClients(asker, early, answerer, said));
      && Received(r.sent, asker) == [PROMPT, AWAIT_ANSWERER] + seq(|early|, _ => PATIENCE) + [MAY_ASK]
                                    + AskerHears(said, asker, true)
      && Received(r.sent, answerer) == [PROMPT, AWAIT_QUESTION] + AnswererHears(said, answerer, true)
      && (forall fd: nat | fd != asker && fd != answerer :: Received(r.sent, fd) == [])
      && WellAddressed(r.sent, asker, answerer) && r.actives == 2
  {
    var first, second := [Connect(asker)], [Connect(answerer)];
    var s1 := Step(INITIAL, Connect(asker));
    var s2 := Run(s1, Messages(early));
    var s3 := Step(s2, Connect(answerer));
    FirstClient(asker);
    FirstHears(asker);
    HearsAlone(s1, early, asker, 0);
    SecondClient(s2, asker, answerer, |early|);
    SecondHears(s2, asker, answerer, |early|);
    BothHear(s3, said, asker, answerer);
    RunsOn(INITIAL, first + Messages(early) + second, Messages(said));
    RunsOn(INITIAL, first + Messages(early), second);
    RunsOn(INITIAL, first, Messages(early));
    assert Run(INITIAL, first) == s1 && Run(s2, second) == s3;
  }

  /** Before the second client has come the end of the first one's input is taken for one
      more message. */
  lemma {:induction false} HangUpAlone(asker: nat, early: seq<Said>)
    requires asker != 0 && From(early, asker, asker)
    ensures var talk := [Connect(asker)] + Messages(early);
      var s, r := Run(INITIAL, talk), Run(INITIAL, talk + [HangUp(asker)]);
      && r == s.(sent := s.sent + [Send(asker, PATIENCE)])
      && Received(r.sent, asker) == [PROMPT, AWAIT_ANSWERER] + seq(|early| + 1, _ => PATIENCE)
  {
    var s1 := Step(INITIAL, Connect(asker));
    var s := Run(s1, Messages(early));
    FirstClient(asker);
    FirstHears(asker);
    HearsAlone(s1, early, asker, 0);
    RunsOn(INITIAL, [Connect(asker)], Messages(early));
    RunsOn(INITIAL, [Connect(asker)] + Messages(early), [HangUp(asker)]);
    assert Run(INITIAL, [Connect(asker)]) == s1;
    assert Run(s, [HangUp(asker)]) == Step(s, HangUp(asker));
    OneMoreReminder(s, asker, |early|);
  }

  // ---------------------------------------------------------------- alternation

  /** Questions and answers in turn, beginning with a question or with an answer. */
  predicate Alternates(u: seq<Utterance>, questionFirst: bool) {
    forall k | 0 <= k < |u| :: u[k].Asked? == ((k % 2 == 0) == questionFirst)
  }

  function Asks(u: seq<Utterance>): nat {
    if u == [] then 0 else (if u[0].Asked? then 1 else 0) + Asks(u[1..])
  }

  lemma AlternatesOn(first: Utterance, rest: seq<Utterance>)
    requires Alternates(rest, !first.Asked?)
    ensures Alternates([first] + rest, first.Asked?)
  {
    var u := [first] + rest;
    forall k | 0 <= k < |u|
      ensures u[k].Asked? == ((k % 2 == 0) == first.Asked?)
    {
      if k > 0 {
        assert u[k] == rest[k - 1] && (k % 2 == 0 <==> (k - 1) % 2 != 0);
      }
    }
  }

  lemma {:induction false} TurnsAlternate(said: seq<Said>, turn: nat, other: nat, asker: nat, answerer: nat)
    requires asker != answerer && ((turn == asker && other == answerer) || (turn == answerer && other == asker))
    ensures Alternates(Utterances(InTurn(said, turn, other), asker, answerer), turn == asker)
    decreases |said|
  {
    if said != [] {
      if said[0].fd == turn {
        TurnsAlternate(said[1..], other, turn, asker, answerer);
        AccountOf(said, turn, other, asker, answerer);
        AlternatesOn(Utter(said[0], asker, answerer), Utterances(InTurn(said[1..], other, turn), asker, answerer));
      } else {
        TurnsAlternate(said[1..], turn, other, asker, answerer);
      }
    }
  }

  lemma {:induction false} AsksOfAlternating(u: seq<Utterance>)
    requires Alternates(u, true)
    ensures Asks(u) == (|u| + 1) / 2
    decreases |u|
  {
    if |u| > 1 {
      assert u[1..][1..] == u[2..];
      AsksOfAlternating(u[2..]);
      assert u[0].Asked? && !u[1].Asked?;
    }
  }

  /** Questions and answers take turns, and the state is the difference of their numbers. */
  lemma StrictAlternation(asker: nat, early: seq<Said>, answerer: nat, said: seq<Said>)
    requires asker != 0 && answerer != 0 && asker != answerer
    requires From(early, asker, asker) && From(said, asker, answerer)
    ensures var r := Run(INITIAL, TwoClients(asker, early, answerer, said));
      var u := Dialogue(r.sent);
      var questions, answers := Asks(u), |u| - Asks(u);
      Alternates(u, true) && questions - answers == (if r.phase == WaitAnswerer then 1 else 0)
  {
    TurnDiscipline(asker, early, answerer, said);
    TurnsAlternate(said, asker, answerer, asker, answerer);
    AsksOfAlternating(Dialogue(Run(INITIAL, TwoClients(asker, early, answerer, said)).sent));
  }

  /** Whoever hangs up, the other one is told, and that is the end. */
  lemma HangUpEnds(asker: nat, early: seq<Said>, answerer: nat, said: seq<Said>, fd: nat)
    requires asker != 0 && answerer != 0 && asker != answerer && (fd == asker || fd == answerer)
    requires From(early, asker, asker) && From(said, asker, answerer)
    ensures var talk := TwoClients(asker, early, answerer, said);
      var r := Run(INITIAL, talk + [HangUp(fd)]);
      && r.phase == Exit
      && r.sent == Run(INITIAL, talk).sent + [Send(if fd == asker then answerer else asker, LEFT)]
  {
    TurnDiscipline(asker, early, answerer, said);
    RunsOn(INITIAL, TwoClients(asker, early, answerer, said), [HangUp(fd)]);
  }
}
