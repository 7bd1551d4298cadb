/** What holds in every state that any run of reactor and workers reaches. */
module BrokerSafety {
  import opened Bags
  import opened Broker
  import opened BrokerInvariant
  import opened BrokerSteps
  import opened Wrappers

  lemma StepKeeps(s: State, step: Step)
    requires Inv(s) && Enabled(s, step)
    ensures Inv(Next(s, step))
  {
    hide Inv, Enabled, Next;
    match step
    case Accept => AcceptKeepsInv(s);
    case Read(h, complete) => if complete { ReadMessageKeeps(s, h); } else { ReadPartKeeps(s, h); }
    case Write(h, finished) => WriteKeeps(s, h, finished);
    case Disconnect(h) => DisconnectKeeps(s, h);
    case Deliver => DeliverKeeps(s);
    case Take(w) => TakeKeeps(s, w);
    case Decode(w, valid) => DecodeKeeps(s, w, valid);
    case Answer(w, fits) => AnswerKeeps(s, w, fits);
    case Post(w) => PostKeeps(s, w);
  }

  lemma AcceptKeepsInv(s: State)
    requires Inv(s) && Enabled(s, Accept)
    ensures Inv(Next(s, Accept))
  {
    hide Inv, Next;
    AcceptKeeps(s);
  }

  lemma {:induction false} IdleHands(n: nat)
    ensures OfHands(seq(n, _ => Idle)) == multiset{} && AsksOfHands(seq(n, _ => Idle)) == multiset{}
  {
    if n > 0 {
      IdleHands(n - 1);
      var ws := seq(n, _ => Idle);
      assert ws[1..] == seq(n - 1, _ => Idle);
      assert HandParts(ws)[1..] == HandParts(ws[1..]);
      assert HandAsks(ws)[1..] == HandAsks(ws[1..]);
    }
  }

  lemma InitialInv(workers: nat, requestRoom: nat, responseRoom: nat)
    ensures Inv(Initial(workers, requestRoom, responseRoom))
  {
    IdleHands(workers);
    assert ClientParts(map[], 0) == [];
    assert TaskParts([]) == [] && TaskAsks([]) == [];
  }

  lemma {:induction false} RunKeeps(steps: seq<Step>, start: State, s: State)
    requires Inv(start) && Leads(steps, start, s)
    ensures Inv(s)
    decreases |steps|
  {
    hide Inv, Enabled, Next;
    if steps != [] {
      StepKeeps(start, steps[0]);
      RunKeeps(steps[1..], Next(start, steps[0]), s);
    }
  }

  /** Some run of the started broker, with any number of workers and any queue sizes, leads to s. */
  ghost predicate Reachable(s: State) {
    exists steps, workers, requestRoom, responseRoom :: Leads(steps, Initial(workers, requestRoom, responseRoom), s)
  }

  lemma ReachableInv(s: State)
    requires Reachable(s)
    ensures Inv(s)
  {
    hide Inv;
    var steps, w, q, r :| Leads(steps, Initial(w, q, r), s);
    InitialInv(w, q, r);
    RunKeeps(steps, Initial(w, q, r), s);
  }

  // ---- single ownership --------------------------------------------------------------------------

  /** Every variable of the program that can refer to a buffer. */
  datatype Place =
    | Pooled(i: nat)
    | Rx(handle: nat)
    | Tx(handle: nat)
    | QueuedRequest(i: nat)
    | QueuedResponse(i: nat)
    | InHand(worker: nat)
    | Leaked(i: nat)

  ghost function OfTaskBuffer(t: Task): Option<Buffer> {
    if t.request.Some? then t.request else t.response
  }

  ghost function OfHandBuffer(h: Hand): Option<Buffer> {
    match h
    case Idle => None
    case Taken(t) => OfTaskBuffer(t)
    case Decoded(_, b, _) => Some(b)
    case Ready(t) => OfTaskBuffer(t)
  }

  ghost function At(s: State, p: Place): Option<Buffer> {
    match p
    case Pooled(i) => if i < |s.net.pool| then Some(s.net.pool[i]) else None
    case Rx(h) => if h in s.net.clients then Some(s.net.clients[h].rx) else None
    case Tx(h) => if h in s.net.clients then s.net.clients[h].tx else None
    case QueuedRequest(i) => if i < |s.net.requests| then OfTaskBuffer(s.net.requests[i]) else None
    case QueuedResponse(i) => if i < |s.net.responses| then OfTaskBuffer(s.net.responses[i]) else None
    case InHand(w) => if w < |s.workers| then OfHandBuffer(s.workers[w]) else None
    case Leaked(i) => if i < |s.lost| then Some(s.lost[i]) else None
  }

  /** The multiset one kind of place contributes to. */
  ghost function Kind(s: State, p: Place): multiset<Buffer> {
    match p
    case Pooled(_) => multiset(s.net.pool)
    case Rx(_) => OfClients(s.net)
    case Tx(_) => OfClients(s.net)
    case QueuedRequest(_) => OfTasks(s.net.requests)
    case QueuedResponse(_) => OfTasks(s.net.responses)
    case InHand(_) => OfHands(s.workers)
    case Leaked(_) => multiset(s.lost)
  }

  lemma ClientAt(s: State, h: nat, b: Buffer)
    requires Contents(s) && h in s.net.clients && (s.net.clients[h].rx == b || s.net.clients[h].tx == Some(b))
    ensures OfClients(s.net)[b] >= 1
  {
    hide Contents, Gather, ClientParts;
    ClientBounds(s, h);
    ClientPartIn(s.net.clients, s.net.counter, h);
    assert b in OfClient(s.net.clients[h]);
  }

  lemma TaskAt(ts: seq<Task>, i: nat, b: Buffer)
    requires i < |ts| && OfTaskBuffer(ts[i]) == Some(b)
    ensures OfTasks(ts)[b] >= 1
  {
    hide Gather;
    GatherIn(TaskParts(ts), i);
    assert b in TaskParts(ts)[i];
  }

  lemma HandAt(ws: seq<Hand>, w: nat, b: Buffer)
    requires w < |ws| && OfHandBuffer(ws[w]) == Some(b)
    ensures OfHands(ws)[b] >= 1
  {
    hide Gather, OfHand, OfHandBuffer;
    BufferInHand(ws[w], b);
    GatherIn(HandParts(ws), w);
    assert b in HandParts(ws)[w];
  }

  lemma AtCounts(s: State, p: Place, b: Buffer)
    requires Contents(s) && At(s, p) == Some(b)
    ensures Kind(s, p)[b] >= 1
  {
    hide Contents, OfTasks, OfHands, OfClients, OfTaskBuffer, OfHandBuffer;
    match p
    case Pooled(i) => assert b in s.net.pool;
    case Rx(h) => ClientAt(s, h, b);
    case Tx(h) => ClientAt(s, h, b);
    case QueuedRequest(i) => TaskAt(s.net.requests, i, b);
    case QueuedResponse(i) => TaskAt(s.net.responses, i, b);
    case InHand(w) => HandAt(s.workers, w, b);
    case Leaked(i) => assert b in s.lost;
  }

  lemma SeqTwice(bs: seq<Buffer>, i: nat, j: nat)
    requires i < j < |bs| && bs[i] == bs[j]
    ensures multiset(bs)[bs[i]] >= 2
  {
    assert bs == bs[..j] + bs[j..];
    assert bs[i] in bs[..j] && bs[j] in bs[j..];
  }

  lemma PartsTwice(parts: seq<multiset<Buffer>>, i: nat, j: nat, b: Buffer)
    requires i < |parts| && j < |parts| && i != j && b in parts[i] && b in parts[j]
    ensures Gather(parts)[b] >= 2
  {
    if i < j {
      GatherTwo(parts, i, j);
      assert (parts[i] + parts[j])[b] >= 2;
    } else {
      GatherTwo(parts, j, i);
      assert (parts[j] + parts[i])[b] >= 2;
    }
  }

  lemma SameClientTwice(s: State, h: nat, b: Buffer)
    requires Contents(s) && h in s.net.clients && s.net.clients[h].rx == b && s.net.clients[h].tx == Some(b)
    ensures OfClients(s.net)[b] >= 2
  {
    hide Contents, Gather;
    ClientBounds(s, h);
    ClientPartIn(s.net.clients, s.net.counter, h);
    assert OfClient(s.net.clients[h])[b] == 2;
  }

  lemma OtherClientTwice(s: State, h: nat, k: nat, b: Buffer)
    requires Contents(s) && h in s.net.clients && k in s.net.clients && h != k
    requires b in OfClient(s.net.clients[h]) && b in OfClient(s.net.clients[k])
    ensures OfClients(s.net)[b] >= 2
  {
    hide Contents, Gather, OfClient;
    ClientBounds(s, h);
    ClientBounds(s, k);
    PartsTwice(ClientParts(s.net.clients, s.net.counter), h - 1, k - 1, b);
  }

  ghost predicate ClientPlace(p: Place) { p.Rx? || p.Tx? }

  lemma TasksTwice(ts: seq<Task>, i: nat, j: nat, b: Buffer)
    requires i < |ts| && j < |ts| && i != j && OfTaskBuffer(ts[i]) == Some(b) == OfTaskBuffer(ts[j])
    ensures OfTasks(ts)[b] >= 2
  {
    hide Gather;
    PartsTwice(TaskParts(ts), i, j, b);
  }

  lemma HandsTwice(ws: seq<Hand>, i: nat, j: nat, b: Buffer)
    requires i < |ws| && j < |ws| && i != j && OfHandBuffer(ws[i]) == Some(b) == OfHandBuffer(ws[j])
    ensures OfHands(ws)[b] >= 2
  {
    hide Gather, OfHand, OfHandBuffer;
    BufferInHand(ws[i], b);
    BufferInHand(ws[j], b);
    PartsTwice(HandParts(ws), i, j, b);
  }

  lemma BufferInHand(h: Hand, b: Buffer)
    requires OfHandBuffer(h) == Some(b)
    ensures b in OfHand(h)
  {
  }

  lemma BuffersTwice(bs: seq<Buffer>, i: nat, j: nat)
    requires i < |bs| && j < |bs| && i != j && bs[i] == bs[j]
    ensures multiset(bs)[bs[i]] >= 2
  {
    if i < j {
      SeqTwice(bs, i, j);
    } else {
      SeqTwice(bs, j, i);
    }
  }

  lemma TwoPlacesOneList(s: State, p: Place, q: Place, b: Buffer)
    requires At(s, p) == Some(b) == At(s, q) && p != q && SameList(p, q)
    ensures Kind(s, p)[b] >= 2
  {
    hide OfTasks, OfHands, OfClients, OfTaskBuffer, OfHandBuffer;
    match p
    case Pooled(i) => BuffersTwice(s.net.pool, i, q.i);
    case Leaked(i) => BuffersTwice(s.lost, i, q.i);
    case QueuedRequest(i) => TasksTwice(s.net.requests, i, q.i, b);
    case QueuedResponse(i) => TasksTwice(s.net.responses, i, q.i, b);
    case InHand(w) => HandsTwice(s.workers, w, q.worker, b);
  }

  lemma TwoPlacesOfClients(s: State, p: Place, q: Place, b: Buffer)
    requires Contents(s) && At(s, p) == Some(b) == At(s, q) && p != q && ClientPlace(p) && ClientPlace(q)
    ensures OfClients(s.net)[b] >= 2
  {
    hide Contents, Gather, OfClients;
    if p.handle == q.handle {
      SameClientTwice(s, p.handle, b);
    } else {
      OtherClientTwice(s, p.handle, q.handle, b);
    }
  }

  ghost predicate SameList(p: Place, q: Place) {
    || (p.Pooled? && q.Pooled?) || (p.Leaked? && q.Leaked?) || (p.InHand? && q.InHand?)
    || (p.QueuedRequest? && q.QueuedRequest?) || (p.QueuedResponse? && q.QueuedResponse?)
  }

  /**
   In every reachable state a buffer is at no two places at once: not with two connections, not with a worker
   and the reactor, and not twice in the pool.
   */
  lemma SingleOwner(s: State, p: Place, q: Place)
    requires Reachable(s) && At(s, p).Some? && At(s, p) == At(s, q)
    ensures p == q
  {
    hide Reachable, Contents, At, Accounted, Total, OfTasks, OfHands, OfClients, SameList;
    var b := At(s, p).value;
    ReachableInv(s);
    AtCounts(s, p, b);
    AtCounts(s, q, b);
    assert Total(s)[b] <= 1;
    if p != q {
      if ClientPlace(p) && ClientPlace(q) {
        TwoPlacesOfClients(s, p, q, b);
        KindsApart(s, p, p, b);
      } else if SameList(p, q) {
        TwoPlacesOneList(s, p, q, b);
        KindsApart(s, p, p, b);
      } else {
        KindsApart(s, p, q, b);
      }
    }
  }

  lemma KindsApart(s: State, p: Place, q: Place, b: Buffer)
    ensures Kind(s, p)[b] <= Total(s)[b]
    ensures !(ClientPlace(p) && ClientPlace(q)) && !SameList(p, q) ==> Kind(s, p)[b] + Kind(s, q)[b] <= Total(s)[b]
  {
    hide Gather, OfClients, OfTasks, OfHands, Total, Times;
    TotalCount(s, b);
    TimesIs(s.net.pool, b);
    TimesIs(s.lost, b);
  }

  lemma TimesIs(bs: seq<Buffer>, b: Buffer)
    ensures Times(bs, b) == multiset(bs)[b]
  {
  }

  /** Conservation: every buffer ever allocated is somewhere, and nothing refers to anything else. */
  lemma EveryBufferSomewhere(s: State, b: Buffer)
    requires Reachable(s)
    ensures b < |s.net.content| <==> exists p :: At(s, p) == Some(b)
  {
    hide Reachable, Contents, Accounted, Gather;
    ReachableInv(s);
    if p :| At(s, p) == Some(b) {
      AtCounts(s, p, b);
      KindsApart(s, p, p, b);
    }
    if b < |s.net.content| {
      var p := FindPlace(s, b);
    }
  }

  lemma FindRequest(s: State, b: Buffer) returns (p: Place)
    requires Contents(s) && b in OfTasks(s.net.requests)
    ensures At(s, p) == Some(b)
  {
    hide Gather, ResponsesOk, HandsOk, ClientsOk;
    var i := GatherFind(TaskParts(s.net.requests), b);
    p := QueuedRequest(i);
  }

  lemma FindResponse(s: State, b: Buffer) returns (p: Place)
    requires Contents(s) && b in OfTasks(s.net.responses)
    ensures At(s, p) == Some(b)
  {
    hide Gather, RequestsOk, HandsOk, ClientsOk;
    var i := GatherFind(TaskParts(s.net.responses), b);
    p := QueuedResponse(i);
  }

  lemma FindInHand(s: State, b: Buffer) returns (p: Place)
    requires Contents(s) && b in OfHands(s.workers)
    ensures At(s, p) == Some(b)
  {
    hide Gather, Contents, OfHand, OfHandBuffer;
    var w := GatherFind(HandParts(s.workers), b);
    HandBounds(s, w);
    HandHolds(s.net.counter, s.net.content, s.workers[w], b);
    p := InHand(w);
  }

  lemma HandHolds(n: nat, content: seq<Content>, h: Hand, b: Buffer)
    requires HandOk(n, content, h) && b in OfHand(h)
    ensures OfHandBuffer(h) == Some(b)
  {
  }

  lemma FindInClient(s: State, b: Buffer) returns (p: Place)
    requires b in OfClients(s.net)
    ensures At(s, p) == Some(b)
  {
    hide Gather;
    var i := GatherFind(ClientParts(s.net.clients, s.net.counter), b);
    p := if s.net.clients[i + 1].rx == b then Rx(i + 1) else Tx(i + 1);
  }

  lemma FindInSeq(bs: seq<Buffer>, b: Buffer) returns (i: nat)
    requires Times(bs, b) > 0
    ensures i < |bs| && bs[i] == b
  {
    assert b in multiset(bs);
    i :| i < |bs| && bs[i] == b;
  }

  lemma FindPlace(s: State, b: Buffer) returns (p: Place)
    requires Inv(s) && b < |s.net.content|
    ensures At(s, p) == Some(b)
  {
    hide Gather, OfTasks, OfHands, OfClients, Accounted, Total, Times, Contents;
    TotalCount(s, b);
    if Times(s.net.pool, b) > 0 {
      var i := FindInSeq(s.net.pool, b);
      p := Pooled(i);
    } else if Times(s.lost, b) > 0 {
      var i := FindInSeq(s.lost, b);
      p := Leaked(i);
    } else if b in OfClients(s.net) {
      p := FindInClient(s, b);
    } else if b in OfTasks(s.net.requests) {
      p := FindRequest(s, b);
    } else if b in OfTasks(s.net.responses) {
      p := FindResponse(s, b);
    } else {
      p := FindInHand(s, b);
    }
  }

  // ---- routing -----------------------------------------------------------------------------------

  /** What the program attempts without asking for anything but the phase it is in. */
  ghost predicate Attempted(s: State, step: Step) {
    match step
    case Accept => true
    case Read(h, _) => h in s.net.clients
    case Write(h, _) => h in s.net.clients && s.net.clients[h].writing
    case Disconnect(h) => h in s.net.clients
    case Deliver => |s.net.responses| > 0
    case Take(w) => w < |s.workers| && s.workers[w].Idle? && |s.net.requests| > 0
    case Decode(w, _) => w < |s.workers| && s.workers[w].Taken?
    case Answer(w, _) => w < |s.workers| && s.workers[w].Decoded?
    case Post(w) => w < |s.workers| && s.workers[w].Ready?
  }

  /** No step ever runs into a missing buffer. */
  lemma NoMissingBuffer(s: State, step: Step)
    requires Reachable(s)
    ensures Attempted(s, step) <==> Enabled(s, step)
  {
    hide Reachable, Contents, Accounted, Total;
    ReachableInv(s);
    PoolAllocated(s);
    match step
    case Read(h, _) => if h in s.net.clients { ClientBounds(s, h); }
    case Write(h, _) => if h in s.net.clients { ClientBounds(s, h); }
    case Deliver => if |s.net.responses| > 0 { ResponseBounds(s); }
    case Decode(w, _) => if w < |s.workers| { HandBounds(s, w); }
    case Answer(w, _) => if w < |s.workers| { HandBounds(s, w); }
    case Post(w) => if w < |s.workers| { HandBounds(s, w); }
    case _ =>
  }

  /** Write interest is on exactly while the connection's transmit buffer holds an unsent response of its own. */
  lemma InterestMeansUnsent(s: State, h: nat)
    requires Reachable(s) && h in s.net.clients
    ensures var c := s.net.clients[h];
      c.writing <==> c.tx.Some? && c.tx.value < |s.net.content| && s.net.content[c.tx.value].Reply?
    ensures var c := s.net.clients[h];
      c.writing ==> var a := s.net.content[c.tx.value].ask; a.handle == h && a in s.answered
  {
    hide Reachable, Contents, Owned, Accounted;
    ReachableInv(s);
    ClientBounds(s, h);
  }

  /**
   A delivered response reaches the connection that asked: what is to be sent answers a request that was read
   from this very handle and that had not been answered or dropped before.
   */
  lemma ResponseReachesAsker(s: State)
    requires Reachable(s) && Enabled(s, Deliver)
    ensures var t := Next(s, Deliver);
      var h := s.net.responses[0].ask.handle;
      h in s.net.clients ==>
        && h in t.net.clients && t.net.clients[h].tx.Some? && t.net.clients[h].tx.value < |t.net.content|
        && t.net.content[t.net.clients[h].tx.value].Reply?
        && var a := t.net.content[t.net.clients[h].tx.value].ask;
           a.handle == h && a in s.asked && a !in s.answered && a !in s.dropped && t.answered[a] == 1
    ensures var t := Next(s, Deliver);
      forall k <- s.net.clients :: k != s.net.responses[0].ask.handle
                                   ==> k in t.net.clients && t.net.clients[k] == s.net.clients[k]
  {
    hide Reachable, Contents, Owned, AsksOf, AsksOfHands;
    ReachableInv(s);
    ResponseBounds(s);
    TaskTaken(s.net.responses);
    var a := s.net.responses[0].ask;
    assert InFlight(s)[a] >= 1;
    assert s.asked[a] == InFlight(s)[a] + s.answered[a] + s.dropped[a] && s.asked[a] <= 1;
  }

  /** Handles are not reused: nothing of the past, in flight or not, carries the handle of a new connection. */
  lemma HandleIsFresh(s: State)
    requires Reachable(s) && Enabled(s, Accept)
    ensures var h := s.net.counter + 1;
      && h !in s.net.clients && h in Next(s, Accept).net.clients
      && forall a :: a in s.asked || a in InFlight(s) || a in s.answered ==> a.handle != h
  {
    hide Reachable, Contents, Owned, AsksOf, AsksOfHands, InFlight;
    ReachableInv(s);
    var h := s.net.counter + 1;
    if h in s.net.clients {
      ClientBounds(s, h);
    }
    forall a | a in s.asked || a in InFlight(s) || a in s.answered ensures a.handle != h {
      assert s.asked[a] >= InFlight(s)[a] + s.answered[a];
    }
  }

  /** Each request has exactly one fate so far, and no more responses are set for a handle than it asked for. */
  lemma AnswersBoundedByRequests(s: State, h: nat)
    requires Reachable(s)
    ensures s.asked == InFlight(s) + s.answered + s.dropped
    ensures forall a :: s.asked[a] <= 1
    ensures |set a <- s.answered | a.handle == h| <= |set a <- s.asked | a.handle == h|
  {
    hide Reachable, Contents, Owned, InFlight;
    ReachableInv(s);
    forall a ensures s.asked[a] == (InFlight(s) + s.answered + s.dropped)[a] && s.asked[a] <= 1 {
      assert s.asked[a] == InFlight(s)[a] + s.answered[a] + s.dropped[a];
    }
    var few, many := set a <- s.answered | a.handle == h, set a <- s.asked | a.handle == h;
    assert few <= many;
    SubsetSize(few, many);
  }

  lemma {:induction false} SubsetSize<T>(few: set<T>, many: set<T>)
    requires few <= many
    ensures |few| <= |many|
  {
    if few != {} {
      var x :| x in few;
      SubsetSize(few - {x}, many - {x});
    }
  }

  /** A buffer that a full queue, a failed decoding or an overflow dropped never comes back. */
  lemma {:induction false} LostForever(steps: seq<Step>, s: State, t: State)
    requires Leads(steps, s, t)
    ensures s.lost <= t.lost
    decreases |steps|
  {
    if steps != [] {
      LostStep(s, steps[0]);
      LostForever(steps[1..], Next(s, steps[0]), t);
    }
  }

  lemma LostStep(s: State, step: Step)
    requires Enabled(s, step)
    ensures s.lost <= Next(s, step).lost
  {
  }
}
