/**
 The broker: one reactor thread and any number of workers, which share a bounded request queue and a bounded
 response queue. The reactor reads messages into pooled buffers, a worker answers into the very same buffer, and
 the reactor sends it. Threads are interleaved steps; sockets, decoding failures and oversized responses are
 choices of the step.
 */
module Broker {
  import opened Wrappers

  /** A buffer by its number in the order of allocation. */
  type Buffer = nat

  /** The message of that number (from 0) on the connection with that network handle. */
  datatype Ask = Ask(handle: nat, number: nat)

  /** What a buffer holds: nothing to rely on, a complete request, or the response to a request. */
  datatype Content = Blank | Message(ask: Ask) | Reply(ask: Ask)

  datatype Client = Client(rx: Buffer, tx: Option<Buffer>, writing: bool, heard: nat)

  datatype Task = Task(ask: Ask, request: Option<Buffer>, response: Option<Buffer>)

  /** Where a worker is in processing a task. */
  datatype Hand = Idle | Taken(task: Task) | Decoded(task: Task, buffer: Buffer, read: Ask) | Ready(task: Task)

  /** Buffers (content has one entry for each one ever allocated), connections, and the two queues. */
  datatype Net = Net(
    pool: seq<Buffer>, content: seq<Content>,
    clients: map<nat, Client>, counter: nat,
    requests: seq<Task>, requestRoom: nat,
    responses: seq<Task>, responseRoom: nat)

  /** A worker's hands, buffers that nobody refers to any more, and what became of every request. */
  datatype State = State(
    net: Net, workers: seq<Hand>, lost: seq<Buffer>,
    asked: multiset<Ask>, answered: multiset<Ask>, dropped: multiset<Ask>)

  datatype Step =
    | Accept
    | Read(handle: nat, complete: bool)
    | Write(handle: nat, finished: bool)
    | Disconnect(handle: nat)
    | Deliver
    | Take(worker: nat)
    | Decode(worker: nat, valid: bool)
    | Answer(worker: nat, fits: bool)
    | Post(worker: nat)

  // ---- the pool --------------------------------------------------------------------------------

  predicate InMemory(pool: seq<Buffer>, content: seq<Content>) {
    forall i :: 0 <= i < |pool| ==> pool[i] < |content|
  }

  predicate PoolOk(n: Net) { InMemory(n.pool, n.content) }

  /** Takes the oldest pooled buffer, or allocates one; either way it is cleared. */
  function AquireFrom(pool: seq<Buffer>, content: seq<Content>): (r: (seq<Buffer>, seq<Content>, Buffer))
    requires InMemory(pool, content)
    ensures InMemory(r.0, r.1) && |content| <= |r.1|
  {
    if pool == [] then ([], content + [Blank], |content|)
    else (pool[1..], content[pool[0] := Blank], pool[0])
  }

  function Aquire(n: Net): (r: (Net, Buffer))
    requires PoolOk(n)
  {
    var (pool, content, b) := AquireFrom(n.pool, n.content);
    (n.(pool := pool, content := content), b)
  }

  function Returned(o: Option<Buffer>): seq<Buffer> {
    if o.Some? then [o.value] else []
  }

  // ---- the reactor -----------------------------------------------------------------------------

  function NetAccept(n: Net): Net
    requires PoolOk(n)
  {
    var (n1, rx) := Aquire(n);
    var (n2, tx) := Aquire(n1);
    n2.(counter := n.counter + 1, clients := n.clients[n.counter + 1 := Client(rx, Some(tx), false, 0)])
  }

  /** The connection's receive buffer gets bytes that do not complete a message. */
  function NetReadPart(n: Net, h: nat): Net
    requires h in n.clients && n.clients[h].rx < |n.content|
  {
    n.(content := n.content[n.clients[h].rx := Blank])
  }

  /** A complete message leaves in a task; the connection goes on with another buffer. */
  function NetReadMessage(n: Net, h: nat): Net
    requires PoolOk(n) && h in n.clients && n.clients[h].rx < |n.content|
  {
    var c := n.clients[h];
    var ask := Ask(h, c.heard);
    var (n1, rx) := Aquire(n.(content := n.content[c.rx := Message(ask)]));
    var n2 := n1.(clients := n.clients[h := c.(rx := rx, heard := c.heard + 1)]);
    if |n.requests| < n.requestRoom then n2.(requests := n.requests + [Task(ask, Some(c.rx), None)]) else n2
  }

  /** Nothing left to send. */
  function NetWritten(n: Net, h: nat): Net
    requires h in n.clients && n.clients[h].tx.Some?
  {
    var c := n.clients[h];
    n.(pool := n.pool + [c.tx.value], clients := n.clients[h := c.(tx := None, writing := false)])
  }

  function NetDisconnect(n: Net, h: nat): Net
    requires h in n.clients
  {
    var c := n.clients[h];
    n.(pool := n.pool + [c.rx] + Returned(c.tx), clients := n.clients - {h})
  }

  /** One response leaves the queue, for its connection or, if that is gone, for the pool. */
  function NetDeliver(n: Net): Net
    requires |n.responses| > 0 && n.responses[0].response.Some?
  {
    var t := n.responses[0];
    var h := t.ask.handle;
    var n1 := n.(responses := n.responses[1..]);
    if h in n.clients then
      var c := n.clients[h];
      n1.(pool := n.pool + Returned(c.tx) + Returned(t.request),
          clients := n.clients[h := c.(tx := t.response, writing := true)])
    else
      n1.(pool := n.pool + Returned(t.request) + Returned(t.response))
  }

  // ---- all threads -----------------------------------------------------------------------------

  /** When a step can happen; also what it must find to not run into a null reference. */
  predicate Enabled(s: State, step: Step) {
    match step
    case Accept => PoolOk(s.net)
    case Read(h, _) => PoolOk(s.net) && h in s.net.clients && s.net.clients[h].rx < |s.net.content|
    case Write(h, _) => h in s.net.clients && s.net.clients[h].writing && s.net.clients[h].tx.Some?
    case Disconnect(h) => h in s.net.clients
    case Deliver => |s.net.responses| > 0 && s.net.responses[0].response.Some?
    case Take(w) => w < |s.workers| && s.workers[w].Idle? && |s.net.requests| > 0
    case Decode(w, _) =>
      && w < |s.workers| && s.workers[w].Taken?
      && s.workers[w].task.request.Some? && s.workers[w].task.request.value < |s.net.content|
    case Answer(w, _) => w < |s.workers| && s.workers[w].Decoded? && s.workers[w].buffer < |s.net.content|
    case Post(w) => w < |s.workers| && s.workers[w].Ready? && s.workers[w].task.response.Some?
  }

  function Next(s: State, step: Step): State
    requires Enabled(s, step)
  {
    match step
    case Accept => s.(net := NetAccept(s.net))
    case Read(h, complete) => NextRead(s, h, complete)
    case Write(h, finished) => if finished then s.(net := NetWritten(s.net, h)) else s
    case Disconnect(h) => s.(net := NetDisconnect(s.net, h))
    case Deliver => NextDeliver(s)
    case Take(w) =>
      s.(workers := s.workers[w := Taken(s.net.requests[0])], net := s.net.(requests := s.net.requests[1..]))
    case Decode(w, valid) => NextDecode(s, w, valid)
    case Answer(w, fits) => NextAnswer(s, w, fits)
    case Post(w) => NextPost(s, w)
  }

  function NextRead(s: State, h: nat, complete: bool): State
    requires Enabled(s, Read(h, complete))
  {
    if !complete then s.(net := NetReadPart(s.net, h))
    else
      var c := s.net.clients[h];
      var ask := Ask(h, c.heard);
      var s1 := s.(net := NetReadMessage(s.net, h), asked := s.asked + multiset{ask});
      if |s.net.requests| < s.net.requestRoom then s1
      else s1.(lost := s.lost + [c.rx], dropped := s.dropped + multiset{ask})
  }

  function NextDeliver(s: State): State
    requires Enabled(s, Deliver)
  {
    var ask := s.net.responses[0].ask;
    var s1 := s.(net := NetDeliver(s.net));
    if ask.handle in s.net.clients then s1.(answered := s.answered + multiset{ask})
    else s1.(dropped := s.dropped + multiset{ask})
  }

  /** Takes the request buffer out of the worker task and decodes it. An exception drops both. */
  function NextDecode(s: State, w: nat, valid: bool): State
    requires Enabled(s, Decode(w, valid))
  {
    var t := s.workers[w].task;
    var b := t.request.value;
    var found := s.net.content[b];
    if valid && found.Message? then
      s.(workers := s.workers[w := Decoded(t.(request := None), b, found.ask)])
    else
      s.(workers := s.workers[w := Idle], lost := s.lost + [b], dropped := s.dropped + multiset{t.ask})
  }

  /** Writes the response to the decoded request over the request. */
  function NextAnswer(s: State, w: nat, fits: bool): State
    requires Enabled(s, Answer(w, fits))
  {
    var hand := s.workers[w];
    if fits then
      s.(net := s.net.(content := s.net.content[hand.buffer := Reply(hand.read)]),
         workers := s.workers[w := Ready(hand.task.(response := Some(hand.buffer)))])
    else
      s.(net := s.net.(content := s.net.content[hand.buffer := Blank]),
         workers := s.workers[w := Idle], lost := s.lost + [hand.buffer],
         dropped := s.dropped + multiset{hand.task.ask})
  }

  function NextPost(s: State, w: nat): State
    requires Enabled(s, Post(w))
  {
    var t := s.workers[w].task;
    var s1 := s.(workers := s.workers[w := Idle]);
    if |s.net.responses| < s.net.responseRoom then
      s1.(net := s.net.(responses := s.net.responses + [t]))
    else
      s1.(lost := s.lost + [t.response.value], dropped := s.dropped + multiset{t.ask})
  }

  function Initial(workers: nat, requestRoom: nat, responseRoom: nat): State {
    State(Net([], [], map[], 0, [], requestRoom, [], responseRoom), seq(workers, _ => Idle), [],
          multiset{}, multiset{}, multiset{})
  }

  /** s is what the steps lead to from the state of the started broker. */
  predicate Leads(steps: seq<Step>, start: State, s: State)
    decreases |steps|
  {
    if steps == [] then s == start
    else Enabled(start, steps[0]) && Leads(steps[1..], Next(start, steps[0]), s)
  }
}
