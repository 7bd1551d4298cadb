/**
 Two paired clients converse through the broker: the requester sends a number in a fresh conversation context and
 waits for a message of that context, the responder answers every message it finds with the next number in the
 message's context. Requests to the broker may be lost, executed late, or executed after the client gave up on
 them and sent again; clients that are not part of the pair send and take messages as well.
 */
module PairedConversation {
  import opened Wrappers

  datatype Side = Requester | Responder

  /** A stored message; number is None if the content is not the text of a number. */
  datatype Message = Message(context: Option<nat>, number: Option<int>)

  datatype Operation =
    | SendRequest(content: int)
    | DequeueFor(context: nat)
    | SendResponse(context: nat, content: int)
    | DequeueAny

  datatype Reply = Sent(context: nat) | Dequeued(message: Option<Message>) | Failed

  /** A client's fields; attempt numbers its requests to the broker, and stopped says that its loop has ended. */
  datatype Peer = Peer(sending: bool, context: nat, counter: int, attempt: nat, waiting: bool, stopped: bool)

  datatype Submitted = Submitted(side: Side, attempt: nat, op: Operation)

  datatype Answered = Answered(side: Side, attempt: nat, op: Operation, reply: Reply)

  /**
   The two clients, what the broker has not executed yet, replies on their way, the messages in the two clients'
   queues, and the last context the database has issued. The map remembers which number was sent in which
   context by the requester.
   */
  datatype State = State(
    requester: Peer, responder: Peer,
    submitted: seq<Submitted>, replies: seq<Answered>,
    toResponder: seq<Message>, toRequester: seq<Message>,
    issued: nat, sent: map<nat, int>)

  datatype Step =
    | Submit(side: Side)
    | Execute(i: nat, found: Option<nat>)
    | Fail(i: nat)
    | LoseRequest(i: nat)
    | LoseReply(i: nat)
    | Receive(i: nat)
    | Timeout(side: Side)
    | Issue
    | ForeignSend(to: Side, message: Message)
    | ForeignDequeue(from: Side, i: nat)

  function PeerOf(s: State, side: Side): Peer {
    if side.Requester? then s.requester else s.responder
  }

  function WithPeer(s: State, side: Side, p: Peer): State {
    if side.Requester? then s.(requester := p) else s.(responder := p)
  }

  function Removed<T>(ts: seq<T>, i: nat): seq<T>
    requires i < |ts|
  {
    ts[..i] + ts[i + 1..]
  }

  /** The request that a client's next action makes. */
  function NextOperation(side: Side, p: Peer): Operation {
    match side
    case Requester => if p.sending then SendRequest(p.counter) else DequeueFor(p.context)
    case Responder => if p.sending then SendResponse(p.context, p.counter) else DequeueAny
  }

  /** The branch that reports an unexpected number. */
  predicate Mismatch(p: Peer, reply: Reply) {
    && !p.sending && reply.Dequeued? && reply.message.Some? && reply.message.value.number.Some?
    && reply.message.value.number.value != p.counter + 1
  }

  /** The requester's action, once the broker has answered. Exceptions end the client. */
  function AfterRequesting(p: Peer, reply: Reply): Peer {
    if p.sending then
      match reply
      case Sent(context) => p.(sending := false, context := context)
      case _ => p.(stopped := true)
    else
      match reply
      case Dequeued(None) => p
      case Dequeued(Some(m)) =>
        if m.number.None? then p.(stopped := true) else p.(counter := m.number.value + 1, sending := true)
      case _ => p.(stopped := true)
  }

  /** The responder's action. A message without a context cannot be answered. */
  function AfterResponding(p: Peer, reply: Reply): Peer {
    if p.sending then
      if reply.Sent? then p.(sending := false) else p.(stopped := true)
    else
      match reply
      case Dequeued(None) => p
      case Dequeued(Some(m)) =>
        if m.number.None? then p.(stopped := true)
        else if m.context.None? then p.(counter := m.number.value + 1, stopped := true)
        else p.(counter := m.number.value + 1, context := m.context.value, sending := true)
      case _ => p.(stopped := true)
  }

  function AfterAction(side: Side, p: Peer, reply: Reply): Peer {
    if side.Requester? then AfterRequesting(p, reply) else AfterResponding(p, reply)
  }

  /** A row of the queue that passes the filter, or no row. */
  predicate Findable(queue: seq<Message>, context: Option<nat>, found: Option<nat>) {
    found.Some? ==> found.value < |queue| && (context.Some? ==> queue[found.value].context == context)
  }

  predicate KnownContext(issued: nat, m: Message) {
    m.context.Some? ==> m.context.value <= issued
  }

  /** A message on its way to the responder: in a context of the requester it carries that context's number. */
  predicate ThereOk(issued: nat, sent: map<nat, int>, m: Message) {
    && KnownContext(issued, m)
    && (m.context.Some? && m.context.value in sent ==> m.number == Some(sent[m.context.value]))
  }

  /** A message on its way back carries the next number. */
  predicate BackOk(issued: nat, sent: map<nat, int>, m: Message) {
    && KnownContext(issued, m)
    && (m.context.Some? && m.context.value in sent ==> m.number == Some(sent[m.context.value] + 1))
  }

  /** Others may send what they like, but in a context of the requester only the number that belongs there. */
  predicate Enabled(s: State, step: Step) {
    match step
    case Submit(side) => !PeerOf(s, side).waiting && !PeerOf(s, side).stopped
    case Execute(i, found) =>
      i < |s.submitted| &&
      (match s.submitted[i].op
       case DequeueFor(context) => Findable(s.toRequester, Some(context), found)
       case DequeueAny => Findable(s.toResponder, None, found)
       case _ => true)
    case Fail(i) => i < |s.submitted|
    case LoseRequest(i) => i < |s.submitted|
    case LoseReply(i) => i < |s.replies|
    case Receive(i) =>
      && i < |s.replies| && PeerOf(s, s.replies[i].side).waiting
      && s.replies[i].attempt == PeerOf(s, s.replies[i].side).attempt
    case Timeout(side) => PeerOf(s, side).waiting
    case Issue => true
    case ForeignSend(to, m) => if to.Requester? then BackOk(s.issued, s.sent, m) else ThereOk(s.issued, s.sent, m)
    case ForeignDequeue(from, i) => i < if from.Requester? then |s.toRequester| else |s.toResponder|
  }

  function Next(s: State, step: Step): State
    requires Enabled(s, step)
  {
    match step
    case Submit(side) =>
      var p := PeerOf(s, side);
      WithPeer(s, side, p.(waiting := true))
        .(submitted := s.submitted + [Submitted(side, p.attempt, NextOperation(side, p))])
    case Execute(i, found) => Executed(s, i, found)
    case Fail(i) =>
      var r := s.submitted[i];
      s.(submitted := Removed(s.submitted, i), replies := s.replies + [Answered(r.side, r.attempt, r.op, Failed)])
    case LoseRequest(i) => s.(submitted := Removed(s.submitted, i))
    case LoseReply(i) => s.(replies := Removed(s.replies, i))
    case Receive(i) =>
      var a := s.replies[i];
      var p := PeerOf(s, a.side);
      WithPeer(s, a.side, AfterAction(a.side, p, a.reply).(waiting := false, attempt := p.attempt + 1))
        .(replies := Removed(s.replies, i))
    case Timeout(side) =>
      var p := PeerOf(s, side);
      WithPeer(s, side, p.(waiting := false, attempt := p.attempt + 1))
    case Issue => s.(issued := s.issued + 1)
    case ForeignSend(to, m) =>
      if to.Requester? then s.(toRequester := s.toRequester + [m]) else s.(toResponder := s.toResponder + [m])
    case ForeignDequeue(from, i) =>
      if from.Requester? then s.(toRequester := Removed(s.toRequester, i))
      else s.(toResponder := Removed(s.toResponder, i))
  }

  /** The broker executes a request and replies. A request opens a new context; a response keeps its context. */
  function Executed(s: State, i: nat, found: Option<nat>): State
    requires Enabled(s, Execute(i, found))
  {
    var r := s.submitted[i];
    var s1 := s.(submitted := Removed(s.submitted, i));
    match r.op
    case SendRequest(content) =>
      var context := s.issued + 1;
      s1.(issued := context, sent := s.sent[context := content],
          toResponder := s.toResponder + [Message(Some(context), Some(content))],
          replies := s.replies + [Answered(r.side, r.attempt, r.op, Sent(context))])
    case SendResponse(context, content) =>
      s1.(toRequester := s.toRequester + [Message(Some(context), Some(content))],
          replies := s.replies + [Answered(r.side, r.attempt, r.op, Sent(context))])
    case DequeueFor(context) =>
      if found.None? then s1.(replies := s.replies + [Answered(r.side, r.attempt, r.op, Dequeued(None))])
      else
        s1.(toRequester := Removed(s.toRequester, found.value),
            replies := s.replies + [Answered(r.side, r.attempt, r.op, Dequeued(Some(s.toRequester[found.value])))])
    case DequeueAny =>
      if found.None? then s1.(replies := s.replies + [Answered(r.side, r.attempt, r.op, Dequeued(None))])
      else
        s1.(toResponder := Removed(s.toResponder, found.value),
            replies := s.replies + [Answered(r.side, r.attempt, r.op, Dequeued(Some(s.toResponder[found.value])))])
  }

  /** Both clients have started; their queues may hold anything from before. */
  predicate Initial(s: State) {
    && s.requester == Peer(true, 0, 0, 0, false, false) && s.responder == Peer(false, 0, 0, 0, false, false)
    && s.submitted == [] && s.replies == [] && s.sent == map[]
    && (forall m <- s.toResponder :: KnownContext(s.issued, m))
    && (forall m <- s.toRequester :: KnownContext(s.issued, m))
  }

  predicate Leads(steps: seq<Step>, start: State, s: State)
    decreases |steps|
  {
    if steps == [] then s == start
    else Enabled(start, steps[0]) && Leads(steps[1..], Next(start, steps[0]), s)
  }

  ghost predicate Reachable(s: State) {
    exists steps, start :: Initial(start) && Leads(steps, start, s)
  }

  // ---- the invariant -----------------------------------------------------------------------------

  ghost predicate OperationOk(issued: nat, sent: map<nat, int>, op: Operation) {
    match op
    case SendRequest(content) => content % 2 == 0
    case SendResponse(context, content) =>
      context <= issued && (context in sent ==> content == sent[context] + 1)
    case _ => true
  }

  ghost predicate ReplyOk(issued: nat, sent: map<nat, int>, op: Operation, reply: Reply) {
    match op
    case SendRequest(_) => !reply.Dequeued?
    case SendResponse(_, _) => !reply.Dequeued?
    case DequeueFor(context) =>
      !reply.Sent? && (reply.Dequeued? && reply.message.Some? ==>
                         reply.message.value.context == Some(context) && BackOk(issued, sent, reply.message.value))
    case DequeueAny =>
      !reply.Sent? && (reply.Dequeued? && reply.message.Some? ==> ThereOk(issued, sent, reply.message.value))
  }

  ghost predicate RequesterOk(s: State, p: Peer) {
    p.counter % 2 == 0 && (!p.sending && !p.stopped ==> p.context in s.sent && s.sent[p.context] == p.counter)
  }

  ghost predicate ResponderOk(s: State, p: Peer) {
    p.sending && !p.stopped ==> p.context <= s.issued && (p.context in s.sent ==> p.counter == s.sent[p.context] + 1)
  }

  /** Only the attempt a client is waiting for carries its current number, and asks what its fields say. */
  ghost predicate Current(side: Side, p: Peer, attempt: nat, op: Operation) {
    attempt <= p.attempt && (attempt == p.attempt ==> p.waiting && op == NextOperation(side, p))
  }

  ghost predicate Peers(s: State) {
    && RequesterOk(s, s.requester) && ResponderOk(s, s.responder)
    && (s.requester.stopped ==> !s.requester.waiting) && (s.responder.stopped ==> !s.responder.waiting)
  }

  ghost predicate Queues(issued: nat, sent: map<nat, int>, toResponder: seq<Message>, toRequester: seq<Message>) {
    && (forall m <- toResponder :: ThereOk(issued, sent, m))
    && (forall m <- toRequester :: BackOk(issued, sent, m))
  }

  ghost predicate Traffic(issued: nat, sent: map<nat, int>, submitted: seq<Submitted>, replies: seq<Answered>) {
    && (forall r <- submitted :: OperationOk(issued, sent, r.op))
    && (forall a <- replies :: ReplyOk(issued, sent, a.op, a.reply))
  }

  ghost predicate Attempts(s: State) {
    && (forall r <- s.submitted :: Current(r.side, PeerOf(s, r.side), r.attempt, r.op))
    && (forall a <- s.replies :: Current(a.side, PeerOf(s, a.side), a.attempt, a.op))
  }

  /** The context that the requester is about to take over was issued for its current number. */
  ghost predicate Confirmed(sent: map<nat, int>, p: Peer, a: Answered) {
    a.side.Requester? && a.attempt == p.attempt && a.op.SendRequest? && a.reply.Sent? ==>
      a.reply.context in sent && sent[a.reply.context] == a.op.content
  }

  ghost predicate Confirmations(sent: map<nat, int>, p: Peer, replies: seq<Answered>) {
    forall a <- replies :: Confirmed(sent, p, a)
  }

  ghost predicate Contexts(issued: nat, sent: map<nat, int>) {
    forall c <- sent :: c <= issued && sent[c] % 2 == 0
  }

  ghost predicate Inv(s: State) {
    && Peers(s) && Queues(s.issued, s.sent, s.toResponder, s.toRequester)
    && Traffic(s.issued, s.sent, s.submitted, s.replies) && Attempts(s) && Contexts(s.issued, s.sent)
    && Confirmations(s.sent, s.requester, s.replies)
  }

  /** More contexts, all of them new. */
  ghost predicate Extends(issued: nat, sent: map<nat, int>, issued1: nat, sent1: map<nat, int>) {
    && issued <= issued1
    && (forall c <- sent :: c in sent1 && sent1[c] == sent[c])
    && (forall c <- sent1 :: c in sent || (issued < c <= issued1 && sent1[c] % 2 == 0))
  }

  /** A new context changes nothing about what is under way in older ones. */
  lemma NewContext(s: State, issued: nat, sent: map<nat, int>)
    requires Inv(s)
    requires Extends(s.issued, s.sent, issued, sent)
    ensures Queues(issued, sent, s.toResponder, s.toRequester) && Traffic(issued, sent, s.submitted, s.replies)
    ensures Peers(s.(issued := issued, sent := sent)) && Contexts(issued, sent)
    ensures Confirmations(sent, s.requester, s.replies)
  {
    hide Attempts;
    NewContextTraffic(s, issued, sent);
  }

  lemma NewContextTraffic(s: State, issued: nat, sent: map<nat, int>)
    requires Traffic(s.issued, s.sent, s.submitted, s.replies)
    requires Extends(s.issued, s.sent, issued, sent)
    ensures Traffic(issued, sent, s.submitted, s.replies)
  {
    forall r <- s.submitted ensures OperationOk(issued, sent, r.op) {
      assert OperationOk(s.issued, s.sent, r.op);
    }
    forall a <- s.replies ensures ReplyOk(issued, sent, a.op, a.reply) {
      assert ReplyOk(s.issued, s.sent, a.op, a.reply);
    }
  }

  lemma SubmitKeeps(s: State, side: Side)
    requires Inv(s) && Enabled(s, Submit(side))
    ensures Inv(Next(s, Submit(side)))
  {
    hide Queues, ReplyOk, Contexts;
  }

  /** What is left of a list was there before. */
  lemma RemovedIn<T>(ts: seq<T>, i: nat)
    requires i < |ts|
    ensures forall t <- Removed(ts, i) :: t in ts
  {
  }

  lemma DropKeeps(s: State, step: Step)
    requires Inv(s) && Enabled(s, step) && (step.LoseRequest? || step.LoseReply?)
    ensures Inv(Next(s, step))
  {
    hide Queues, ReplyOk, OperationOk, Contexts, Current, Removed;
    if step.LoseRequest? {
      RemovedIn(s.submitted, step.i);
    } else {
      RemovedIn(s.replies, step.i);
    }
  }

  lemma FailKeeps(s: State, i: nat)
    requires Inv(s) && Enabled(s, Fail(i))
    ensures Inv(Next(s, Fail(i)))
  {
    hide Queues, OperationOk, Contexts, Current, Removed;
    RemovedIn(s.submitted, i);
    assert s.submitted[i] in s.submitted;
  }

  lemma TimeoutKeeps(s: State, side: Side)
    requires Inv(s) && Enabled(s, Timeout(side))
    ensures Inv(Next(s, Timeout(side)))
  {
    hide Queues, ReplyOk, OperationOk, Contexts;
  }

  lemma ForeignKeeps(s: State, step: Step)
    requires Inv(s) && Enabled(s, step) && (step.ForeignSend? || step.ForeignDequeue?)
    ensures Inv(Next(s, step))
  {
    hide ReplyOk, OperationOk, Contexts, Current, Removed;
    if step.ForeignDequeue? {
      if step.from.Requester? {
        RemovedIn(s.toRequester, step.i);
      } else {
        RemovedIn(s.toResponder, step.i);
      }
    }
  }

  lemma ReceiveKeeps(s: State, i: nat)
    requires Inv(s) && Enabled(s, Receive(i))
    ensures Inv(Next(s, Receive(i)))
  {
    hide Queues, OperationOk, Removed;
    var a := s.replies[i];
    RemovedIn(s.replies, i);
    assert a in s.replies;
    assert ReplyOk(s.issued, s.sent, a.op, a.reply) && Current(a.side, PeerOf(s, a.side), a.attempt, a.op);
    var t := Next(s, Receive(i));
    assert Traffic(t.issued, t.sent, t.submitted, t.replies) by { hide ReplyOk; }
  }

  lemma ExecuteRequestKeeps(s: State, i: nat, found: Option<nat>)
    requires Inv(s) && Enabled(s, Execute(i, found)) && s.submitted[i].op.SendRequest?
    ensures Inv(Next(s, Execute(i, found)))
  {
    hide Current, Removed;
    var r := s.submitted[i];
    assert r in s.submitted;
    RemovedIn(s.submitted, i);
    var context := s.issued + 1;
    assert OperationOk(s.issued, s.sent, r.op);
    NewContext(s, context, s.sent[context := r.op.content]);
  }

  lemma ExecuteResponseKeeps(s: State, i: nat, found: Option<nat>)
    requires Inv(s) && Enabled(s, Execute(i, found)) && s.submitted[i].op.SendResponse?
    ensures Inv(Next(s, Execute(i, found)))
  {
    hide Current, Removed, Contexts;
    var r := s.submitted[i];
    assert r in s.submitted;
    RemovedIn(s.submitted, i);
    assert OperationOk(s.issued, s.sent, r.op);
  }

  lemma ExecuteDequeueForKeeps(s: State, i: nat, found: Option<nat>)
    requires Inv(s) && Enabled(s, Execute(i, found)) && s.submitted[i].op.DequeueFor?
    ensures Inv(Next(s, Execute(i, found)))
  {
    hide Current, Removed, Contexts, OperationOk, ThereOk;
    var r := s.submitted[i];
    assert r in s.submitted;
    RemovedIn(s.submitted, i);
    if found.Some? {
      RemovedIn(s.toRequester, found.value);
    }
  }

  lemma ExecuteDequeueAnyKeeps(s: State, i: nat, found: Option<nat>)
    requires Inv(s) && Enabled(s, Execute(i, found)) && s.submitted[i].op.DequeueAny?
    ensures Inv(Next(s, Execute(i, found)))
  {
    hide Current, Removed, Contexts, OperationOk, BackOk;
    var r := s.submitted[i];
    assert r in s.submitted;
    RemovedIn(s.submitted, i);
    if found.Some? {
      RemovedIn(s.toResponder, found.value);
    }
  }

  lemma StepKeeps(s: State, step: Step)
    requires Inv(s) && Enabled(s, step)
    ensures Inv(Next(s, step))
  {
    hide Inv;
    match step
    case Execute(i, found) =>
      match s.submitted[i].op {
        case SendRequest(_) => ExecuteRequestKeeps(s, i, found);
        case SendResponse(_, _) => ExecuteResponseKeeps(s, i, found);
        case DequeueFor(_) => ExecuteDequeueForKeeps(s, i, found);
        case DequeueAny => ExecuteDequeueAnyKeeps(s, i, found);
      }
    case Receive(i) => ReceiveKeeps(s, i);
    case Submit(side) => SubmitKeeps(s, side);
    case Fail(i) => FailKeeps(s, i);
    case LoseRequest(_) => DropKeeps(s, step);
    case LoseReply(_) => DropKeeps(s, step);
    case Timeout(side) => TimeoutKeeps(s, side);
    case Issue => IssueKeeps(s);
    case ForeignSend(_, _) => ForeignKeeps(s, step);
    case ForeignDequeue(_, _) => ForeignKeeps(s, step);
  }

  lemma IssueKeeps(s: State)
    requires Inv(s)
    ensures Inv(Next(s, Issue))
  {
    hide Current;
    NewContext(s, s.issued + 1, s.sent);
  }

  lemma {:induction false} RunKeeps(steps: seq<Step>, start: State, s: State)
    requires Inv(start) && Leads(steps, start, s)
    ensures Inv(s)
    decreases |steps|
  {
    hide Inv, Enabled, Next;
    if steps != [] {
      StepKeeps(start, steps[0]);
      RunKeeps(steps[1..], Next(start, steps[0]), s);
    }
  }

  lemma ReachableInv(s: State)
    requires Reachable(s)
    ensures Inv(s)
  {
    hide Leads;
    var steps, start :| Initial(start) && Leads(steps, start, s);
    RunKeeps(steps, start, s);
  }

  /**
   The mismatch branch is unreachable: a message that the requester receives belongs to the request it made last,
   and carries the next number.
   */
  lemma NoMismatch(s: State, i: nat)
    requires Reachable(s) && Enabled(s, Receive(i)) && s.replies[i].side.Requester?
    ensures !Mismatch(s.requester, s.replies[i].reply)
    ensures var reply := s.replies[i].reply;
      !s.requester.sending && reply.Dequeued? && reply.message.Some? ==>
        && reply.message.value == Message(Some(s.requester.context), Some(s.requester.counter + 1))
        && s.requester.context in s.sent && s.sent[s.requester.context] == s.requester.counter
  {
    hide Reachable, Inv;
    ReachableInv(s);
    ReceivedMatches(s, i);
  }

  lemma ReceivedMatches(s: State, i: nat)
    requires Inv(s) && Enabled(s, Receive(i)) && s.replies[i].side.Requester?
    ensures !Mismatch(s.requester, s.replies[i].reply)
    ensures var reply := s.replies[i].reply;
      !s.requester.sending && reply.Dequeued? && reply.message.Some? ==>
        && reply.message.value == Message(Some(s.requester.context), Some(s.requester.counter + 1))
        && s.requester.context in s.sent && s.sent[s.requester.context] == s.requester.counter
  {
    hide Peers, Queues, Contexts;
    PeersFacts(s);
    var a := s.replies[i];
    assert ReplyOk(s.issued, s.sent, a.op, a.reply) && Current(a.side, s.requester, a.attempt, a.op);
  }

  lemma PeersFacts(s: State)
    requires Peers(s)
    ensures RequesterOk(s, s.requester) && (s.requester.stopped ==> !s.requester.waiting)
  {
  }

  /** Requests carry even numbers, in contexts that the database issued; so does the requester's counter. */
  lemma RequesterStaysEven(s: State)
    requires Reachable(s)
    ensures s.requester.counter % 2 == 0
    ensures forall c <- s.sent :: s.sent[c] % 2 == 0 && c <= s.issued
  {
    hide Reachable, Queues, Traffic, Attempts;
    ReachableInv(s);
  }

  lemma StepFirst(step: Step, rest: seq<Step>, start: State, s: State)
    requires Enabled(start, step) && Leads(rest, Next(start, step), s)
    ensures Leads([step] + rest, start, s)
  {
    hide Enabled, Next;
    assert ([step] + rest)[1..] == rest;
  }

  /** The requester has sent the number 0 in context 1 and now waits for a message of that context. */
  function AfterFirstRequest(): State {
    State(Peer(false, 1, 0, 1, false, false), Peer(false, 0, 0, 0, false, false), [], [],
          [Message(Some(1), Some(0))], [], 1, map[1 := 0])
  }

  lemma FirstRequestReachable()
    ensures Reachable(AfterFirstRequest())
  {
    hide Leads;
    var responder := Peer(false, 0, 0, 0, false, false);
    var s0 := State(Peer(true, 0, 0, 0, false, false), responder, [], [], [], [], 0, map[]);
    var s1 := State(Peer(true, 0, 0, 0, true, false), responder, [Submitted(Requester, 0, SendRequest(0))], [], [],
                    [], 0, map[]);
    var s2 := State(Peer(true, 0, 0, 0, true, false), responder, [],
                    [Answered(Requester, 0, SendRequest(0), Sent(1))], [Message(Some(1), Some(0))], [], 1, map[1 := 0]);
    var s3 := AfterFirstRequest();
    assert Initial(s0);
    assert Next(s0, Submit(Requester)) == s1;
    assert Next(s1, Execute(0, None)) == s2;
    assert Next(s2, Receive(0)) == s3;
    NoSteps(s3);
    StepFirst(Receive(0), [], s2, s3);
    StepFirst(Execute(0, None), [Receive(0)] + [], s1, s3);
    StepFirst(Submit(Requester), [Execute(0, None)] + ([Receive(0)] + []), s0, s3);
  }

  lemma NoSteps(s: State)
    ensures Leads([], s, s)
  {
  }

  /**
   One run: a stranger's wrong number in the context of the first request, where the step that sends it is not
   enabled, makes the requester run into a mismatch.
   */
  lemma StrangerInContextMisleads() returns (s: State, m: Message, t: State)
    ensures Reachable(s) && !Enabled(s, ForeignSend(Requester, m))
    ensures Leads([Submit(Requester), Execute(0, Some(0))], s.(toRequester := s.toRequester + [m]), t)
    ensures Enabled(t, Receive(0)) && t.replies[0].side.Requester? && Mismatch(t.requester, t.replies[0].reply)
  {
    hide Leads, Reachable;
    FirstRequestReachable();
    s, m := AfterFirstRequest(), Message(Some(1), Some(7));
    var u := s.(toRequester := [m]);
    var v := u.(requester := s.requester.(waiting := true), submitted := [Submitted(Requester, 1, DequeueFor(1))]);
    t := v.(submitted := [], toRequester := [],
            replies := [Answered(Requester, 1, DequeueFor(1), Dequeued(Some(m)))]);
    assert s.toRequester + [m] == [m];
    assert Next(u, Submit(Requester)) == v;
    assert Next(v, Execute(0, Some(0))) == t;
    NoSteps(t);
    StepFirst(Execute(0, Some(0)), [], v, t);
    StepFirst(Submit(Requester), [Execute(0, Some(0))] + [], u, t);
    assert [Submit(Requester)] + ([Execute(0, Some(0))] + []) == [Submit(Requester), Execute(0, Some(0))];
  }

  /** The client's fields, and its two actions, given what the broker replies; timeouts change nothing. */
  class PairedClient {
    var sending: bool
    var context: nat
    var messageCounter: int
    var stopped: bool
    var errors: nat

    constructor (requesting: bool)
      ensures View(0, false) == Peer(requesting, 0, 0, 0, false, false) && errors == 0
    {
      sending, context, messageCounter, stopped, errors := requesting, 0, 0, false, 0;
    }

    ghost function View(attempt: nat, waiting: bool): Peer
      reads this
    {
      Peer(sending, context, messageCounter, attempt, waiting, stopped)
    }

    /** Counts the replies that are reported as unexpected. */
    method RequestingAction(reply: Option<Reply>)
      requires !stopped
      modifies this
      ensures forall attempt, waiting ::
        View(attempt, waiting) == if reply.None? then old(View(attempt, waiting))
                                  else AfterRequesting(old(View(attempt, waiting)), reply.value)
      ensures errors == old(errors) + if reply.Some? && Mismatch(old(View(0, true)), reply.value) then 1 else 0
    {
      if reply.None? {
        return;
      }
      if sending {
        if reply.value.Sent? {
          context := reply.value.context;
          sending := !sending;
        } else {
          stopped := true;
        }
      } else if reply.value.Dequeued? {
        if reply.value.message.Some? {
          var message := reply.value.message.value;
          if message.number.None? {
            stopped := true;
            return;
          }
          var responseCounter := message.number.value;
          if responseCounter != messageCounter + 1 {
            errors := errors + 1;
          }
          messageCounter := responseCounter + 1;
          sending := !sending;
        }
      } else {
        stopped := true;
      }
    }

    method RespondingAction(reply: Option<Reply>)
      requires !stopped
      modifies this
      ensures forall attempt, waiting ::
        View(attempt, waiting) == if reply.None? then old(View(attempt, waiting))
                                  else AfterResponding(old(View(attempt, waiting)), reply.value)
      ensures errors == old(errors)
    {
      if reply.None? {
        return;
      }
      if sending {
        if reply.value.Sent? {
          sending := !sending;
        } else {
          stopped := true;
        }
      } else if reply.value.Dequeued? {
        if reply.value.message.Some? {
          var message := reply.value.message.value;
          if message.number.None? {
            stopped := true;
            return;
          }
          messageCounter := message.number.value + 1;
          if message.context.None? {
            stopped := true;
            return;
          }
          context := message.context.value;
          sending := !sending;
        }
      } else {
        stopped := true;
      }
    }
  }
}
