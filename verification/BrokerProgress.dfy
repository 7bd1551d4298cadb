/** What becomes of requests: which steps drop one, and that a broker with room can answer every connection. */
module BrokerProgress {
  import opened Broker
  import opened BrokerInvariant
  import opened BrokerSafety
  import BrokerSteps
  import opened Wrappers

  // ---- which steps drop a request ------------------------------------------------------------------

  /** A full queue, a request that cannot be decoded, a response that does not fit, or a peer that has gone. */
  predicate Drops(s: State, step: Step) {
    match step
    case Read(_, complete) => complete && |s.net.requests| >= s.net.requestRoom
    case Decode(_, valid) => !valid
    case Answer(_, fits) => !fits
    case Post(_) => |s.net.responses| >= s.net.responseRoom
    case Deliver => s.net.responses != [] && s.net.responses[0].ask.handle !in s.net.clients
    case _ => false
  }

  /** The request that a step is about. */
  function Concerns(s: State, step: Step): Ask
    requires Enabled(s, step)
  {
    match step
    case Read(h, _) => Ask(h, s.net.clients[h].heard)
    case Decode(w, _) => s.workers[w].task.ask
    case Answer(w, _) => s.workers[w].task.ask
    case Post(w) => s.workers[w].task.ask
    case Deliver => s.net.responses[0].ask
    case _ => Ask(0, 0)
  }

  /**
   In every reachable state: a step drops the request it is about in exactly these cases, and no other one. It
   costs a buffer in the same cases, unless the peer has gone. Reading a message is asking, delivering is answering.
   */
  lemma DroppedIff(s: State, step: Step)
    requires Reachable(s) && Enabled(s, step)
    ensures var t := Next(s, step);
      && t.dropped == s.dropped + (if Drops(s, step) then multiset{Concerns(s, step)} else multiset{})
      && |t.lost| == |s.lost| + (if Drops(s, step) && step != Deliver then 1 else 0)
      && t.asked == s.asked + (if step.Read? && step.complete then multiset{Concerns(s, step)} else multiset{})
      && t.answered == s.answered
                       + (if step == Deliver && !Drops(s, step) then multiset{Concerns(s, step)} else multiset{})
  {
    hide Reachable, Inv, NetAccept, NetReadMessage, NetReadPart, NetDeliver, NetWritten, NextDecode, NextAnswer;
    ReachableInv(s);
    match step
    case Decode(w, valid) => DecodeDrops(s, w, valid);
    case Answer(w, fits) => AnswerDrops(s, w, fits);
    case _ =>
  }

  lemma DecodeDrops(s: State, w: nat, valid: bool)
    requires Inv(s) && Enabled(s, Decode(w, valid))
    ensures var t := NextDecode(s, w, valid);
      && t.dropped == s.dropped + (if valid then multiset{} else multiset{s.workers[w].task.ask})
      && |t.lost| == |s.lost| + (if valid then 0 else 1) && t.asked == s.asked && t.answered == s.answered
  {
    hide Inv;
    TakenIsMessage(s, w);
  }

  lemma AnswerDrops(s: State, w: nat, fits: bool)
    requires Enabled(s, Answer(w, fits))
    ensures var t := NextAnswer(s, w, fits);
      && t.dropped == s.dropped + (if fits then multiset{} else multiset{s.workers[w].task.ask})
      && |t.lost| == |s.lost| + (if fits then 0 else 1) && t.asked == s.asked && t.answered == s.answered
  {
  }

  lemma TakenIsMessage(s: State, w: nat)
    requires Inv(s) && w < |s.workers| && s.workers[w].Taken?
    ensures RequestOk(s.net.counter, s.net.content, s.workers[w].task)
  {
    hide Contents, Accounted, Owned;
    BrokerSteps.HandBounds(s, w);
  }

  /** Posting loses the response if and only if the queue is full; otherwise it is the last one in the queue. */
  lemma PostDropsIff(s: State, w: nat)
    requires Enabled(s, Post(w))
    ensures var t, task := Next(s, Post(w)), s.workers[w].task;
      && (|s.net.responses| >= s.net.responseRoom <==> t.dropped == s.dropped + multiset{task.ask})
      && (|s.net.responses| < s.net.responseRoom <==> t.net.responses == s.net.responses + [task])
      && t.workers[w] == Idle
  {
    assert |s.net.responses| < |s.net.responses + [s.workers[w].task]|;
    assert (s.dropped + multiset{s.workers[w].task.ask})[s.workers[w].task.ask] > s.dropped[s.workers[w].task.ask];
  }

  // ---- a run that answers --------------------------------------------------------------------------

  /** Steps of a broker in which nothing goes wrong and nobody comes or goes. */
  predicate Works(step: Step) {
    match step
    case Read(_, complete) => complete
    case Deliver => true
    case Take(_) => true
    case Decode(_, valid) => valid
    case Answer(_, fits) => fits
    case Post(_) => true
    case _ => false
  }

  ghost predicate Run(steps: seq<Step>, s: State, t: State) {
    Leads(steps, s, t) && forall step <- steps :: Works(step)
  }

  lemma Stay(s: State)
    ensures Run([], s, s)
  {
  }

  lemma StepThen(step: Step, rest: seq<Step>, s: State, t: State)
    requires Enabled(s, step) && Works(step) && Run(rest, Next(s, step), t)
    ensures Run([step] + rest, s, t)
  {
    hide Enabled, Next;
    assert ([step] + rest)[1..] == rest;
  }

  lemma {:induction false} RunsOn(first: seq<Step>, second: seq<Step>, a: State, b: State, c: State)
    requires Run(first, a, b) && Run(second, b, c)
    ensures Run(first + second, a, c)
    decreases |first|
  {
    hide Enabled, Next;
    if first == [] {
      assert first + second == second;
    } else {
      assert first[0] in first && forall step <- first[1..] :: step in first;
      RunsOn(first[1..], second, Next(a, first[0]), b, c);
      StepThen(first[0], first[1..] + second, a, c);
      assert [first[0]] + (first[1..] + second) == first + second;
    }
  }

  /** The same workers, the same connections with the same numbers of messages, and the same room. */
  ghost predicate Alike(s: State, t: State) {
    && t.workers == s.workers && t.net.clients.Keys == s.net.clients.Keys
    && (forall h <- s.net.clients :: t.net.clients[h].heard == s.net.clients[h].heard)
    && t.net.requestRoom == s.net.requestRoom && t.net.responseRoom == s.net.responseRoom
  }

  /** The connection is about to send the response to that request. */
  ghost predicate Sends(s: State, a: Ask) {
    && a.handle in s.net.clients && s.net.clients[a.handle].writing && s.net.clients[a.handle].tx.Some?
    && Holds(s.net.content, s.net.clients[a.handle].tx.value, Reply(a))
  }

  lemma DeliverOne(s: State)
    requires Inv(s) && s.net.responses != []
    ensures Enabled(s, Deliver)
    ensures var t, a := Next(s, Deliver), s.net.responses[0].ask;
      Inv(t) && Alike(s, t) && t.net.requests == s.net.requests && t.net.responses == s.net.responses[1..]
      && (a.handle in s.net.clients ==> Sends(t, a))
  {
    hide Inv;
    FirstResponse(s);
    StepKeeps(s, Deliver);
  }

  lemma FirstResponse(s: State)
    requires Inv(s) && s.net.responses != []
    ensures ResponseOk(s.net.counter, s.net.content, s.net.responses[0])
  {
    hide ResponseOk, RequestsOk, HandsOk, ClientsOk, Owned, Accounted;
  }

  /** The reactor can empty the response queue. */
  lemma {:induction false} DeliverAll(s: State) returns (steps: seq<Step>, t: State)
    requires Inv(s)
    ensures Run(steps, s, t) && Inv(t) && Alike(s, t) && t.net.requests == s.net.requests && t.net.responses == []
    decreases |s.net.responses|
  {
    hide Inv, Run, Enabled, Next;
    if s.net.responses == [] {
      steps, t := [], s;
      Stay(s);
    } else {
      DeliverOne(s);
      var rest;
      rest, t := DeliverAll(Next(s, Deliver));
      steps := [Deliver] + rest;
      StepThen(Deliver, rest, s, t);
    }
  }

  lemma FirstRequest(s: State)
    requires Inv(s) && s.net.requests != []
    ensures RequestOk(s.net.counter, s.net.content, s.net.requests[0])
  {
    hide RequestOk, ResponsesOk, HandsOk, ClientsOk, Owned, Accounted;
  }

  /** An idle worker takes the oldest request, decodes it, answers it and posts the response. */
  lemma WorkOne(s: State, w: nat) returns (steps: seq<Step>, t: State)
    requires Inv(s) && w < |s.workers| && s.workers[w].Idle? && s.net.requests != []
    requires |s.net.responses| < s.net.responseRoom
    ensures Run(steps, s, t) && Inv(t) && Alike(s, t) && t.net.requests == s.net.requests[1..]
    ensures |t.net.responses| == |s.net.responses| + 1 && t.net.responses[..|s.net.responses|] == s.net.responses
    ensures t.net.responses[|s.net.responses|].ask == s.net.requests[0].ask
  {
    hide Inv, Run;
    FirstRequest(s);
    var s1 := Next(s, Take(w));
    var s2 := Next(s1, Decode(w, true));
    var s3 := Next(s2, Answer(w, true));
    t := Next(s3, Post(w));
    assert t.workers == s.workers;
    StepKeeps(s, Take(w));
    StepKeeps(s1, Decode(w, true));
    StepKeeps(s2, Answer(w, true));
    StepKeeps(s3, Post(w));
    FourSteps(Take(w), Decode(w, true), Answer(w, true), Post(w), s, s1, s2, s3, t);
    steps := [Take(w), Decode(w, true), Answer(w, true), Post(w)];
  }

  lemma FourSteps(x: Step, y: Step, z: Step, u: Step, a: State, b: State, c: State, d: State, e: State)
    requires Enabled(a, x) && b == Next(a, x) && Enabled(b, y) && c == Next(b, y)
    requires Enabled(c, z) && d == Next(c, z) && Enabled(d, u) && e == Next(d, u)
    requires Works(x) && Works(y) && Works(z) && Works(u)
    ensures Run([x, y, z, u], a, e)
  {
    hide Enabled, Next, Run, Works;
    Stay(e);
    StepThen(u, [], d, e);
    StepThen(z, [u] + [], c, e);
    StepThen(y, [z] + ([u] + []), b, e);
    StepThen(x, [y] + ([z] + ([u] + [])), a, e);
    assert [x] + ([y] + ([z] + ([u] + []))) == [x, y, z, u];
  }

  /** One worker can serve the first k + 1 requests; the last of these then waits to be sent, if the peer is there. */
  lemma {:induction false} Serve(s: State, w: nat, k: nat) returns (steps: seq<Step>, t: State)
    requires Inv(s) && w < |s.workers| && s.workers[w].Idle? && k < |s.net.requests|
    requires s.net.responses == [] && s.net.responseRoom > 0
    ensures Run(steps, s, t) && Inv(t) && Alike(s, t)
    ensures s.net.requests[k].ask.handle in s.net.clients ==> Sends(t, s.net.requests[k].ask)
    decreases k
  {
    hide Inv, Run, Sends;
    var posting, posted := WorkOne(s, w);
    DeliverOne(posted);
    var served := Next(posted, Deliver);
    Stay(served);
    StepThen(Deliver, [], posted, served);
    RunsOn(posting, [Deliver] + [], s, posted, served);
    if k == 0 {
      steps, t := posting + ([Deliver] + []), served;
    } else {
      var rest;
      rest, t := Serve(served, w, k - 1);
      RunsOn(posting + ([Deliver] + []), rest, s, served, t);
      steps := posting + ([Deliver] + []) + rest;
    }
  }

  lemma Receives(s: State, h: nat)
    requires Inv(s) && h in s.net.clients && |s.net.requests| < s.net.requestRoom
    ensures Enabled(s, Read(h, true))
    ensures var t := Next(s, Read(h, true));
      && Inv(t) && t.workers == s.workers && t.net.clients.Keys == s.net.clients.Keys
      && t.net.responseRoom == s.net.responseRoom && t.net.responses == s.net.responses
      && |t.net.requests| == |s.net.requests| + 1
      && t.net.requests[|s.net.requests|].ask == Ask(h, s.net.clients[h].heard)
  {
    hide Inv, Contents, Owned, Accounted;
    Readable(s, h);
    StepKeeps(s, Read(h, true));
  }

  lemma Readable(s: State, h: nat)
    requires Inv(s) && h in s.net.clients
    ensures Enabled(s, Read(h, true))
  {
    hide Accounted, Owned, Contents;
    PoolAllocated(s);
    BrokerSteps.ClientBounds(s, h);
  }

  /**
   Progress: from every reachable state with room in both queues and an idle worker, a connection can be read from
   and its request answered, by a run in which nothing goes wrong; the response to that very request then waits in
   the connection's transmit buffer.
   */
  lemma RequestIsAnswered(s: State, h: nat, w: nat) returns (steps: seq<Step>, t: State)
    requires Reachable(s) && h in s.net.clients && w < |s.workers| && s.workers[w].Idle?
    requires |s.net.requests| < s.net.requestRoom && |s.net.responses| < s.net.responseRoom
    ensures Leads(steps, s, t) && forall step <- steps :: Works(step)
    ensures var a := Ask(h, s.net.clients[h].heard);
      h in t.net.clients && t.net.clients[h].writing && t.net.clients[h].tx.Some?
      && t.net.clients[h].tx.value < |t.net.content|
      && t.net.content[t.net.clients[h].tx.value] == Reply(a)
  {
    hide Reachable, Inv, Leads, Enabled, Next;
    ReachableInv(s);
    var delivering, s1 := DeliverAll(s);
    Receives(s1, h);
    var s2 := Next(s1, Read(h, true));
    var serving;
    serving, t := Serve(s2, w, |s1.net.requests|);
    StepThen(Read(h, true), serving, s1, t);
    RunsOn(delivering, [Read(h, true)] + serving, s, s1, t);
    steps := delivering + ([Read(h, true)] + serving);
  }

  /** Sending the rest of it ends the connection's write interest and gives the buffer back. */
  lemma SendCompletes(s: State, a: Ask)
    requires Inv(s) && Sends(s, a)
    ensures Enabled(s, Write(a.handle, true))
    ensures var t := Next(s, Write(a.handle, true));
      && a.handle in t.net.clients && !t.net.clients[a.handle].writing && t.net.clients[a.handle].tx.None?
      && t.net.pool == s.net.pool + [s.net.clients[a.handle].tx.value]
      && Next(s, Write(a.handle, false)) == s
  {
    hide Inv;
  }
}
