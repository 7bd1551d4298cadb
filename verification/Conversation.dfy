/**
 What the paired clients say to each other over whole runs: which numbers the requester sends, what the responder
 makes of them, and that the conversation can always go on.
 */
module Conversation {
  import opened PairedConversation
  import opened Wrappers

  // ---- the requester's counter -------------------------------------------------------------------

  /** The requester accepts a reply: it waits for a message and gets one with a number. */
  predicate Accepts(s: State, step: Step)
    requires Enabled(s, step)
  {
    && step.Receive? && s.replies[step.i].side.Requester? && !s.requester.sending
    && var reply := s.replies[step.i].reply;
       reply.Dequeued? && reply.message.Some? && reply.message.value.number.Some?
  }

  /** Accepting raises the counter by exactly 2, and makes the requester send again; nothing else changes it. */
  lemma CounterStep(s: State, step: Step)
    requires Inv(s) && Enabled(s, step)
    ensures var p, t := s.requester, Next(s, step).requester;
      && t.counter == p.counter + (if Accepts(s, step) then 2 else 0)
      && (Accepts(s, step) ==> !p.sending && p.waiting && t.sending && !t.waiting && !t.stopped)
  {
    hide Peers, Queues, Traffic, Attempts, Contexts, Confirmations, Removed, Executed;
    if step.Receive? && s.replies[step.i].side.Requester? {
      PeersFacts(s);
      RequesterRuns(s);
      ReceivedMatches(s, step.i);
    }
    if step.Execute? {
      ExecutedLeavesPeers(s, step.i, step.found);
    }
  }

  lemma RequesterRuns(s: State)
    requires Inv(s)
    ensures s.requester.waiting ==> !s.requester.stopped
  {
  }

  lemma ExecutedLeavesPeers(s: State, i: nat, found: Option<nat>)
    requires Enabled(s, Execute(i, found))
    ensures Executed(s, i, found).requester == s.requester && Executed(s, i, found).responder == s.responder
  {
    hide Removed;
  }

  /** How many replies the requester accepts along a run. */
  function Accepted(steps: seq<Step>, start: State): nat
    decreases |steps|
  {
    if steps == [] || !Enabled(start, steps[0]) then 0
    else (if Accepts(start, steps[0]) then 1 else 0) + Accepted(steps[1..], Next(start, steps[0]))
  }

  lemma {:induction false} CounterAlong(steps: seq<Step>, start: State, s: State)
    requires Inv(start) && Leads(steps, start, s)
    ensures s.requester.counter == start.requester.counter + 2 * Accepted(steps, start)
    decreases |steps|
  {
    hide Inv, Enabled, Next, Accepts;
    if steps != [] {
      CounterStep(start, steps[0]);
      StepKeeps(start, steps[0]);
      CounterAlong(steps[1..], Next(start, steps[0]), s);
    }
  }

  lemma InitialInv(s: State)
    requires Initial(s)
    ensures Inv(s)
  {
  }

  /** In every run the counter is twice the number of replies accepted so far. */
  lemma CounterIsTwiceAccepted(steps: seq<Step>, start: State, s: State)
    requires Initial(start) && Leads(steps, start, s)
    ensures s.requester.counter == 2 * Accepted(steps, start)
  {
    hide Inv, Leads;
    InitialInv(start);
    CounterAlong(steps, start, s);
  }

  // ---- the numbers in the requests ---------------------------------------------------------------

  /** The request that a step makes to the broker in the requester's name, if it is one to send a number. */
  function MadeBy(s: State, step: Step): seq<int>
    requires Enabled(s, step)
  {
    if step.Submit? && step.side.Requester? then
      var made := Next(s, step).submitted;
      if made[|made| - 1].op.SendRequest? then [made[|made| - 1].op.content] else []
    else []
  }

  /** The numbers of all requests made along a run, in their order, those that were given up and repeated included. */
  function Made(steps: seq<Step>, start: State): seq<int>
    decreases |steps|
  {
    if steps == [] || !Enabled(start, steps[0]) then []
    else MadeBy(start, steps[0]) + Made(steps[1..], Next(start, steps[0]))
  }

  /** From 0 on, each the number before it or the next even one. */
  ghost predicate Gapless(numbers: seq<int>) {
    && (numbers != [] ==> numbers[0] == 0)
    && forall i :: 0 < i < |numbers| ==> numbers[i] == numbers[i - 1] || numbers[i] == numbers[i - 1] + 2
  }

  /** The counter is the last number sent, or the next one if that has just been answered. */
  ghost predicate Said(numbers: seq<int>, p: Peer) {
    && Gapless(numbers)
    && if numbers == [] then p.sending && !p.waiting && p.counter == 0
       else var last := numbers[|numbers| - 1];
         p.counter == last || (p.counter == last + 2 && p.sending && !p.waiting)
  }

  lemma SaidStep(s: State, step: Step, numbers: seq<int>)
    requires Inv(s) && Enabled(s, step) && Said(numbers, s.requester)
    ensures Said(numbers + MadeBy(s, step), Next(s, step).requester)
  {
    hide Inv, Executed, Removed, Findable, AfterResponding;
    CounterStep(s, step);
    if step.Execute? {
      ExecutedLeavesPeers(s, step.i, step.found);
    }
    if step == Submit(Requester) {
      var more := numbers + MadeBy(s, step);
      assert forall i :: 0 <= i < |numbers| ==> more[i] == numbers[i];
    } else {
      assert numbers + [] == numbers;
    }
  }

  lemma {:induction false} SaidAlong(steps: seq<Step>, start: State, s: State, numbers: seq<int>)
    requires Inv(start) && Leads(steps, start, s) && Said(numbers, start.requester)
    ensures Said(numbers + Made(steps, start), s.requester)
    decreases |steps|
  {
    hide Inv, Enabled, Next, MadeBy, Said;
    if steps == [] {
      assert numbers + [] == numbers;
    } else {
      var made, rest := MadeBy(start, steps[0]), Made(steps[1..], Next(start, steps[0]));
      SaidStep(start, steps[0], numbers);
      StepKeeps(start, steps[0]);
      SaidAlong(steps[1..], Next(start, steps[0]), s, numbers + made);
      assert numbers + made + rest == numbers + (made + rest);
    }
  }

  /** In every run the requester's numbers are 0, 2, 4 and so on, without gaps, each until it has been answered. */
  lemma RequestsWithoutGaps(steps: seq<Step>, start: State, s: State)
    requires Initial(start) && Leads(steps, start, s)
    ensures Gapless(Made(steps, start))
    ensures var numbers := Made(steps, start);
      numbers != [] ==> s.requester.counter - 2 <= numbers[|numbers| - 1] <= s.requester.counter
  {
    hide Inv, Leads;
    InitialInv(start);
    SaidAlong(steps, start, s, []);
    assert [] + Made(steps, start) == Made(steps, start);
  }

  // ---- what a client says next -------------------------------------------------------------------

  function LastOperation(s: State): Operation
    requires s.submitted != []
  {
    s.submitted[|s.submitted| - 1].op
  }

  /** The responder answers a number with the next one, in the context it came in; from every state whatsoever. */
  lemma AnswerIsNextNumber(s: State, i: nat, c: nat, k: int)
    requires Enabled(s, Receive(i)) && s.replies[i].side.Responder? && !s.responder.sending && !s.responder.stopped
    requires s.replies[i].reply == Dequeued(Some(Message(Some(c), Some(k))))
    ensures var t := Next(s, Receive(i));
      Enabled(t, Submit(Responder)) && LastOperation(Next(t, Submit(Responder))) == SendResponse(c, k + 1)
  {
    hide Removed;
  }

  /** The requester goes on with the number after the one it got, and waits for the context it was given. */
  lemma RequestIsNextNumber(s: State, i: nat, c: nat, m: Option<nat>, k: int)
    requires Enabled(s, Receive(i)) && s.replies[i].side.Requester? && !s.requester.stopped
    requires s.replies[i].reply == if s.requester.sending then Sent(c) else Dequeued(Some(Message(m, Some(k))))
    ensures var t := Next(s, Receive(i));
      Enabled(t, Submit(Requester))
      && LastOperation(Next(t, Submit(Requester)))
         == if s.requester.sending then DequeueFor(c) else SendRequest(k + 1)
  {
    hide Removed;
  }

  // ---- the conversation can go on ----------------------------------------------------------------

  /** Nothing is under way, the requester is about to send, and the responder waits. */
  predicate Quiet(s: State) {
    && s.submitted == [] && s.replies == []
    && s.requester.sending && !s.requester.waiting && !s.requester.stopped
    && !s.responder.sending && !s.responder.waiting && !s.responder.stopped
  }

  lemma {:induction false} LeadsOn(first: seq<Step>, second: seq<Step>, a: State, b: State, c: State)
    requires Leads(first, a, b) && Leads(second, b, c)
    ensures Leads(first + second, a, c)
    decreases |first|
  {
    hide Enabled, Next;
    if first == [] {
      assert first + second == second;
    } else {
      assert (first + second)[1..] == first[1..] + second;
      LeadsOn(first[1..], second, Next(a, first[0]), b, c);
    }
  }

  lemma ThreeSteps(x: Step, y: Step, z: Step, a: State, b: State, c: State, d: State)
    requires Enabled(a, x) && b == Next(a, x) && Enabled(b, y) && c == Next(b, y) && Enabled(c, z) && d == Next(c, z)
    ensures Leads([x, y, z], a, d)
  {
    hide Enabled, Next;
    NoSteps(d);
    StepFirst(z, [], c, d);
    StepFirst(y, [z] + [], b, d);
    StepFirst(x, [y] + ([z] + []), a, d);
    assert [x] + ([y] + ([z] + [])) == [x, y, z];
  }

  lemma AsksOnce(s: State, side: Side, found: Option<nat>, answered: State) returns (steps: seq<Step>, t: State)
    requires s.submitted == [] && s.replies == [] && !PeerOf(s, side).waiting && !PeerOf(s, side).stopped
    requires Enabled(Next(s, Submit(side)), Execute(0, found))
    requires answered == Executed(Next(s, Submit(side)), 0, found) && |answered.replies| == 1
    requires var a, p := answered.replies[0], PeerOf(s, side);
      a.side == side && a.attempt == p.attempt && PeerOf(answered, side) == p.(waiting := true)
    ensures Leads(steps, s, t) && t == Next(answered, Receive(0))
    ensures t.submitted == answered.submitted && t.replies == []
  {
    hide Leads, Executed, AfterAction;
    steps := [Submit(side), Execute(0, found), Receive(0)];
    t := Next(answered, Receive(0));
    ThreeSteps(Submit(side), Execute(0, found), Receive(0), s, Next(s, Submit(side)), answered, t);
  }

  lemma SendsRequest(s: State) returns (steps: seq<Step>, t: State)
    requires Quiet(s)
    ensures Leads(steps, s, t)
    ensures var p, c := s.requester, s.issued + 1;
      t == s.(requester := p.(sending := false, context := c, attempt := p.attempt + 1), issued := c,
              sent := s.sent[c := p.counter],
              toResponder := s.toResponder + [Message(Some(c), Some(p.counter))])
  {
    hide Leads;
    steps, t := AsksOnce(s, Requester, None, Executed(Next(s, Submit(Requester)), 0, None));
  }

  lemma ResponderTakes(s: State, c: nat, k: int) returns (steps: seq<Step>, t: State)
    requires s.submitted == [] && s.replies == []
    requires !s.responder.sending && !s.responder.waiting && !s.responder.stopped
    requires s.toResponder != [] && s.toResponder[|s.toResponder| - 1] == Message(Some(c), Some(k))
    ensures Leads(steps, s, t)
    ensures var p := s.responder;
      t == s.(responder := p.(sending := true, context := c, counter := k + 1, attempt := p.attempt + 1),
              toResponder := s.toResponder[..|s.toResponder| - 1])
  {
    hide Leads;
    var found := Some(|s.toResponder| - 1);
    steps, t := AsksOnce(s, Responder, found, Executed(Next(s, Submit(Responder)), 0, found));
  }

  lemma SendsResponse(s: State) returns (steps: seq<Step>, t: State)
    requires s.submitted == [] && s.replies == []
    requires s.responder.sending && !s.responder.waiting && !s.responder.stopped
    ensures Leads(steps, s, t)
    ensures var p := s.responder;
      t == s.(responder := p.(sending := false, attempt := p.attempt + 1),
              toRequester := s.toRequester + [Message(Some(p.context), Some(p.counter))])
  {
    hide Leads;
    steps, t := AsksOnce(s, Responder, None, Executed(Next(s, Submit(Responder)), 0, None));
  }

  lemma RequesterTakes(s: State, k: int) returns (steps: seq<Step>, t: State)
    requires s.submitted == [] && s.replies == []
    requires !s.requester.sending && !s.requester.waiting && !s.requester.stopped
    requires s.toRequester != []
    requires s.toRequester[|s.toRequester| - 1] == Message(Some(s.requester.context), Some(k))
    ensures Leads(steps, s, t)
    ensures var p := s.requester;
      t == s.(requester := p.(sending := true, counter := k + 1, attempt := p.attempt + 1),
              toRequester := s.toRequester[..|s.toRequester| - 1])
  {
    hide Leads;
    var found := Some(|s.toRequester| - 1);
    steps, t := AsksOnce(s, Requester, found, Executed(Next(s, Submit(Requester)), 0, found));
  }

  /** One question and its answer, whatever else is stored in the two queues. */
  lemma OneRound(s: State) returns (steps: seq<Step>, t: State)
    requires Quiet(s)
    ensures Leads(steps, s, t) && Quiet(t)
    ensures t.requester.counter == s.requester.counter + 2 && t.responder.counter == s.requester.counter + 1
    ensures t.toResponder == s.toResponder && t.toRequester == s.toRequester
  {
    hide Leads;
    var c, k := s.issued + 1, s.requester.counter;
    var steps1, s1 := SendsRequest(s);
    var steps2, s2 := ResponderTakes(s1, c, k);
    var steps3, s3 := SendsResponse(s2);
    var steps4, s4 := RequesterTakes(s3, k + 1);
    LeadsOn(steps1, steps2, s, s1, s2);
    LeadsOn(steps1 + steps2, steps3, s, s2, s3);
    LeadsOn(steps1 + steps2 + steps3, steps4, s, s3, s4);
    steps, t := steps1 + steps2 + steps3 + steps4, s4;
  }

  /** From every start, whatever the queues hold, the clients can exchange any number of messages. */
  lemma {:induction false} ConversationGoesOn(start: State, rounds: nat) returns (steps: seq<Step>, t: State)
    requires Initial(start)
    ensures Leads(steps, start, t) && Quiet(t) && t.requester.counter == 2 * rounds
  {
    hide Leads;
    if rounds == 0 {
      steps, t := [], start;
      NoSteps(start);
    } else {
      var before, s := ConversationGoesOn(start, rounds - 1);
      var more;
      more, t := OneRound(s);
      LeadsOn(before, more, start, s, t);
      steps := before + more;
    }
  }
}
