/** Every step of every thread keeps the broker's invariant. */
module BrokerSteps {
  import opened Bags
  import opened Broker
  import opened BrokerInvariant
  import opened Wrappers

  // ---- accept ------------------------------------------------------------------------------------

  lemma AcceptOwned(s: State)
    requires Inv(s) && PoolOk(s.net)
    ensures Owned(Next(s, Accept))
  {
    hide Gather, OfTasks, OfHands, Contents, Accounted, SameBut, Holds, ClientParts, Total, Aquire, Times;
    var n := s.net;
    AquireTaken(n);
    var (n1, rx) := Aquire(n);
    AquireTaken(n1);
    var (n2, tx) := Aquire(n1);
    ClientAdded(n.clients, n.counter, Client(rx, Some(tx), false, 0));
    var t := Next(s, Accept);
    forall b: nat ensures Total(t)[b] == One(b < |t.net.content|) {
      TotalCount(s, b);
      TotalCount(t, b);
    }
  }

  lemma AcceptContents(s: State)
    requires Inv(s) && PoolOk(s.net)
    ensures Contents(Next(s, Accept))
  {
    hide Gather, OfTasks, OfHands, OfClients, Total, RequestOk, ResponseOk, HandOk;
    var n := s.net;
    AquireTaken(n);
    var (n1, rx) := Aquire(n);
    AquireTaken(n1);
    var (n2, tx) := Aquire(n1);
    PooledOutside(s, rx);
    PooledOutside(s, tx);
    ContentsFrame(s, n1.content, rx);
    var s1 := s.(net := n.(content := n1.content));
    SameClients(n, s1.net);
    ContentsFrame(s1, n2.content, tx);
    CounterGrows(s, n2.content);
  }

  lemma SameClients(n: Net, m: Net)
    requires n.clients == m.clients && n.counter == m.counter
    ensures OfClients(n) == OfClients(m)
  {
  }

  lemma CounterGrows(s: State, content: seq<Content>)
    requires Contents(s.(net := s.net.(content := content)))
    ensures RequestsOk(s.net.counter + 1, content, s.net.requests)
    ensures ResponsesOk(s.net.counter + 1, content, s.net.responses)
    ensures HandsOk(s.net.counter + 1, content, s.workers)
  {
  }

  lemma AcceptKeeps(s: State)
    requires Inv(s) && PoolOk(s.net)
    ensures Inv(Next(s, Accept))
  {
    hide Gather, OfTasks, OfHands, OfClients, Owned, Contents;
    AcceptOwned(s);
    AcceptContents(s);
  }

  // ---- read --------------------------------------------------------------------------------------

  lemma RxOutside(s: State, h: nat)
    requires Inv(s) && h in s.net.clients
    ensures var c := s.net.clients[h];
      && Outside(s.(net := s.net.(clients := s.net.clients - {h})), c.rx)
      && c.tx != Some(c.rx)
      && c.rx !in s.net.pool
  {
    hide Gather, OfTasks, OfHands, RequestOk, ResponseOk, HandOk, Accounted, Total, ClientParts;
    var c := s.net.clients[h];
    ClientPartIn(s.net.clients, s.net.counter, h);
    ClientRemoved(s.net.clients, s.net.counter, h);
    TotalCount(s, c.rx);
    assert Total(s)[c.rx] <= 1;
    assert OfClient(c)[c.rx] >= 1;
  }

  /** Bytes written to a connection's receive buffer are seen nowhere else. */
  lemma RxWritten(s: State, h: nat, x: Content)
    requires Inv(s) && h in s.net.clients
    ensures Contents(s.(net := s.net.(content := s.net.content[s.net.clients[h].rx := x])))
  {
    hide Gather, OfTasks, OfHands, OfClients, RequestOk, ResponseOk, HandOk, Owned, Accounted;
    var n := s.net;
    var c := n.clients[h];
    var after := n.content[c.rx := x];
    RxOutside(s, h);
    ContentsFrame(s.(net := n.(clients := n.clients - {h})), after, c.rx);
    var t := s.(net := n.(content := after));
    forall k <- n.clients
      ensures 1 <= k <= n.counter && ClientOk(s.asked, s.answered, after, k, n.clients[k])
    {
      if k != h {
        assert k in n.clients - {h};
      }
    }
  }

  lemma ClientBounds(s: State, h: nat)
    requires Contents(s) && h in s.net.clients
    ensures 1 <= h <= s.net.counter && s.net.clients[h].rx < |s.net.content|
    ensures ClientOk(s.asked, s.answered, s.net.content, h, s.net.clients[h])
  {
    hide RequestOk, ResponseOk, HandOk;
  }

  /** What reading a complete message does: the old receive buffer moves to a task or is lost. */
  ghost predicate MessageRead(s: State, t: State, h: nat, n1: Net, rx: Buffer)
    requires h in s.net.clients
  {
    var c := s.net.clients[h];
    var ask := Ask(h, c.heard);
    && t.net.pool == n1.pool && t.net.content == n1.content && t.net.counter == s.net.counter
    && t.net.clients == s.net.clients[h := c.(rx := rx, heard := c.heard + 1)]
    && t.net.responses == s.net.responses && t.workers == s.workers && t.answered == s.answered
    && t.asked == s.asked + multiset{ask}
    && (|| (t.net.requests == s.net.requests + [Task(ask, Some(c.rx), None)]
            && t.lost == s.lost && t.dropped == s.dropped)
        || (t.net.requests == s.net.requests
            && t.lost == s.lost + [c.rx] && t.dropped == s.dropped + multiset{ask}))
  }

  lemma ReadShape(s: State, h: nat)
    requires Enabled(s, Read(h, true))
    ensures var c := s.net.clients[h];
      var n0 := s.net.(content := s.net.content[c.rx := Message(Ask(h, c.heard))]);
      PoolOk(n0) && MessageRead(s, Next(s, Read(h, true)), h, Aquire(n0).0, Aquire(n0).1)
  {
  }

  lemma ReadMessageOwned(s: State, t: State, h: nat, n0: Net, n1: Net, rx: Buffer)
    requires Owned(s) && Contents(s) && h in s.net.clients && MessageRead(s, t, h, n1, rx)
    requires PoolMoved(n0, n1, rx) && n0.pool == s.net.pool && |n0.content| == |s.net.content|
    ensures Owned(t)
  {
    hide Gather, OfTasks, OfTask, OfHands, OfClient, Held, Contents, ClientParts, Total, Times;
    var c := s.net.clients[h];
    var c1 := c.(rx := rx, heard := c.heard + 1);
    var task := Task(Ask(h, c.heard), Some(c.rx), None);
    ClientBounds(s, h);
    ClientSet(s.net.clients, s.net.counter, h, c1);
    TaskAdded(s.net.requests, task);
    forall b: nat ensures Total(t)[b] == One(b < |t.net.content|) {
      TotalCount(s, b);
      TotalCount(t, b);
      TimesOfSum(s.lost, [c.rx], b);
      SingleCount(c.rx, b);
      ClientCount(c, b);
      ClientCount(c1, b);
      TaskCount(task, b);
    }
  }

  lemma SingleCount(x: Buffer, b: Buffer)
    ensures Times([x], b) == One(b == x)
  {
  }

  lemma ClientCount(c: Client, b: Buffer)
    ensures OfClient(c)[b] == One(b == c.rx) + Held(c.tx)[b]
  {
  }

  lemma TaskCount(t: Task, b: Buffer)
    ensures t.response.None? && t.request.Some? ==> OfTask(t)[b] == One(b == t.request.value)
    ensures t.request.None? && t.response.Some? ==> OfTask(t)[b] == One(b == t.response.value)
    ensures t.request.None? && t.response.None? ==> OfTask(t)[b] == 0
  {
  }

  lemma ReadMessageContents(s: State, t: State, h: nat, n1: Net, rx: Buffer)
    requires Contents(s) && h in s.net.clients && MessageRead(s, t, h, n1, rx)
    requires Contents(s.(net := s.net.(content := n1.content)))
    requires Holds(n1.content, s.net.clients[h].rx, Message(Ask(h, s.net.clients[h].heard)))
    requires rx < |n1.content|
    ensures Contents(t)
  {
    hide ResponseOk, HandOk;
    var c := s.net.clients[h];
    forall k <- t.net.clients
      ensures 1 <= k <= s.net.counter && ClientOk(t.asked, t.answered, n1.content, k, t.net.clients[k])
    {
      assert ClientOk(s.asked, s.answered, n1.content, k, s.net.clients[k]);
    }
  }

  lemma ReadAccounted(s: State, t: State, h: nat, n1: Net, rx: Buffer)
    requires Contents(s) && Accounted(s) && h in s.net.clients && MessageRead(s, t, h, n1, rx)
    ensures Accounted(t)
  {
    hide Gather, Contents, AsksOf, AsksOfHands;
    var c := s.net.clients[h];
    var ask := Ask(h, c.heard);
    TaskAdded(s.net.requests, Task(ask, Some(c.rx), None));
    ClientBounds(s, h);
    assert ask !in s.asked;
  }

  lemma ReadMessageKeeps(s: State, h: nat)
    requires Inv(s) && Enabled(s, Read(h, true))
    ensures Inv(Next(s, Read(h, true)))
  {
    hide Gather, OfTasks, OfHands, OfClients, Total, Contents, Owned, Accounted, MessageRead, Aquire, PoolMoved;
    var n := s.net;
    var c := n.clients[h];
    var n0 := n.(content := n.content[c.rx := Message(Ask(h, c.heard))]);
    RxWritten(s, h, Message(Ask(h, c.heard)));
    RxOutside(s, h);
    ReadShape(s, h);
    AquireTaken(n0);
    var (n1, rx) := Aquire(n0);
    PooledOutside(s, rx);
    SameClients(n, n0);
    ContentsFrame(s.(net := n0), n1.content, rx);
    var t := Next(s, Read(h, true));
    ReadMessageOwned(s, t, h, n0, n1, rx);
    ReadMessageContents(s, t, h, n1, rx);
    ReadAccounted(s, t, h, n1, rx);
  }

  lemma ReadPartKeeps(s: State, h: nat)
    requires Inv(s) && Enabled(s, Read(h, false))
    ensures Inv(Next(s, Read(h, false)))
  {
    hide Gather, OfTasks, OfHands, Contents, ClientParts, RequestOk, ResponseOk, HandOk;
    var t := Next(s, Read(h, false));
    RxWritten(s, h, Blank);
    assert Total(t) == Total(s);
  }

  // ---- write, disconnect, deliver ----------------------------------------------------------------

  lemma WriteKeeps(s: State, h: nat, finished: bool)
    requires Inv(s) && Enabled(s, Write(h, finished))
    ensures Inv(Next(s, Write(h, finished)))
  {
    hide Gather, OfTasks, OfTask, OfHands, OfClient, Held, Contents, ClientParts, Total, Times, AsksOf, AsksOfHands;
    if finished {
      var c := s.net.clients[h];
      var c1 := c.(tx := None, writing := false);
      var t := Next(s, Write(h, true));
      WriteContents(s, h);
      ClientBounds(s, h);
      ClientSet(s.net.clients, s.net.counter, h, c1);
      forall b: nat ensures Total(t)[b] == One(b < |t.net.content|) {
        TotalCount(s, b);
        TotalCount(t, b);
        TimesOfSum(s.net.pool, [c.tx.value], b);
        SingleCount(c.tx.value, b);
        ClientCount(c, b);
        ClientCount(c1, b);
        HeldCount(c.tx, b);
        HeldCount(c1.tx, b);
      }
    }
  }

  lemma HeldCount(o: Option<Buffer>, b: Buffer)
    ensures Held(o)[b] == One(o == Some(b)) == Times(Returned(o), b)
  {
  }

  lemma WriteContents(s: State, h: nat)
    requires Contents(s) && Enabled(s, Write(h, true))
    ensures Contents(Next(s, Write(h, true)))
  {
    hide RequestOk, ResponseOk, HandOk;
  }

  lemma DisconnectContents(s: State, h: nat)
    requires Contents(s) && Enabled(s, Disconnect(h))
    ensures Contents(Next(s, Disconnect(h)))
  {
    hide RequestOk, ResponseOk, HandOk, ClientOk;
  }

  lemma DisconnectKeeps(s: State, h: nat)
    requires Inv(s) && Enabled(s, Disconnect(h))
    ensures Inv(Next(s, Disconnect(h)))
  {
    hide Gather, OfTasks, OfTask, OfHands, OfClient, Held, Contents, ClientParts, Total, Times, Returned, AsksOf,
         AsksOfHands;
    var c := s.net.clients[h];
    var t := Next(s, Disconnect(h));
    DisconnectContents(s, h);
    ClientBounds(s, h);
    ClientRemoved(s.net.clients, s.net.counter, h);
    forall b: nat ensures Total(t)[b] == One(b < |t.net.content|) {
      TotalCount(s, b);
      TotalCount(t, b);
      TimesOfSum(s.net.pool + [c.rx], Returned(c.tx), b);
      TimesOfSum(s.net.pool, [c.rx], b);
      SingleCount(c.rx, b);
      ClientCount(c, b);
      HeldCount(c.tx, b);
    }
  }

  lemma ResponseBounds(s: State)
    requires Contents(s) && |s.net.responses| > 0
    ensures ResponseOk(s.net.counter, s.net.content, s.net.responses[0])
  {
    hide RequestOk, ResponseOk, HandOk, ClientOk;
  }

  lemma DeliverContents(s: State)
    requires Contents(s) && Enabled(s, Deliver)
    ensures Contents(Next(s, Deliver))
  {
    hide RequestOk, HandOk;
    ResponseBounds(s);
    var t := Next(s, Deliver);
    forall k <- t.net.clients
      ensures 1 <= k <= t.net.counter && ClientOk(t.asked, t.answered, t.net.content, k, t.net.clients[k])
    {
      ClientBounds(s, k);
    }
  }

  lemma DeliverOwned(s: State)
    requires Inv(s) && Enabled(s, Deliver)
    ensures Owned(Next(s, Deliver))
  {
    hide Gather, OfTasks, OfTask, OfHands, OfClient, Held, Contents, ClientParts, Total, Times, Returned, Accounted;
    var n := s.net;
    var task := n.responses[0];
    var h := task.ask.handle;
    var t := Next(s, Deliver);
    ResponseBounds(s);
    TaskTaken(n.responses);
    var known := h in n.clients;
    if known {
      ClientBounds(s, h);
      ClientSet(n.clients, n.counter, h, n.clients[h].(tx := task.response, writing := true));
    }
    forall b: nat ensures Total(t)[b] == One(b < |t.net.content|) {
      TotalCount(s, b);
      TotalCount(t, b);
      TaskCount(task, b);
      HeldCount(task.request, b);
      HeldCount(task.response, b);
      if known {
        var c := n.clients[h];
        TimesOfSum(n.pool + Returned(c.tx), Returned(task.request), b);
        TimesOfSum(n.pool, Returned(c.tx), b);
        ClientCount(c, b);
        ClientCount(c.(tx := task.response, writing := true), b);
        HeldCount(c.tx, b);
      } else {
        TimesOfSum(n.pool + Returned(task.request), Returned(task.response), b);
        TimesOfSum(n.pool, Returned(task.request), b);
      }
    }
  }

  lemma DeliverKeeps(s: State)
    requires Inv(s) && Enabled(s, Deliver)
    ensures Inv(Next(s, Deliver))
  {
    hide Gather, OfTasks, OfTask, Contents, Owned, AsksOf, AsksOfHands;
    DeliverOwned(s);
    DeliverContents(s);
    TaskTaken(s.net.responses);
  }

  // ---- workers -----------------------------------------------------------------------------------

  lemma HandBounds(s: State, w: nat)
    requires Contents(s) && w < |s.workers|
    ensures HandOk(s.net.counter, s.net.content, s.workers[w])
  {
    hide RequestOk, ResponseOk, HandOk, ClientOk;
  }

  lemma HandCount(h: Hand, b: Buffer)
    ensures OfHand(h)[b] ==
            match h
            case Idle => 0
            case Taken(t) => OfTask(t)[b]
            case Decoded(t, x, _) => OfTask(t)[b] + One(b == x)
            case Ready(t) => OfTask(t)[b]
  {
    hide OfTask;
  }

  lemma TakeContents(s: State, w: nat)
    requires Contents(s) && Enabled(s, Take(w))
    ensures Contents(Next(s, Take(w)))
  {
    hide ResponseOk, ClientOk, RequestOk;
  }

  lemma TakeOwned(s: State, w: nat)
    requires Inv(s) && Enabled(s, Take(w))
    ensures Owned(Next(s, Take(w)))
  {
    hide Gather, OfTasks, OfTask, OfHands, OfHand, OfClients, Contents, Total, Times, Accounted;
    var task := s.net.requests[0];
    var t := Next(s, Take(w));
    TaskTaken(s.net.requests);
    HandSet(s.workers, w, Taken(task));
    SameClients(s.net, t.net);
    forall b: nat ensures Total(t)[b] == One(b < |t.net.content|) {
      TotalCount(s, b);
      TotalCount(t, b);
      HandCount(Taken(task), b);
      HandCount(s.workers[w], b);
    }
  }

  lemma TakeKeeps(s: State, w: nat)
    requires Inv(s) && Enabled(s, Take(w))
    ensures Inv(Next(s, Take(w)))
  {
    hide Owned, Contents, AsksOf, AsksOfHands, OfTasks, OfHands, OfTask, OfHand;
    TakeOwned(s, w);
    TakeContents(s, w);
    TaskTaken(s.net.requests);
    HandSet(s.workers, w, Taken(s.net.requests[0]));
  }

  lemma DecodeContents(s: State, w: nat, valid: bool)
    requires Contents(s) && Enabled(s, Decode(w, valid))
    ensures Contents(Next(s, Decode(w, valid)))
  {
    hide ResponseOk, ClientOk;
    HandBounds(s, w);
  }

  lemma DecodeOwned(s: State, w: nat, valid: bool)
    requires Inv(s) && Enabled(s, Decode(w, valid))
    ensures Owned(Next(s, Decode(w, valid)))
  {
    hide Gather, OfTasks, OfTask, OfHands, OfHand, OfClients, Contents, Total, Times, Accounted;
    var t := Next(s, Decode(w, valid));
    var task := s.workers[w].task;
    HandBounds(s, w);
    HandSet(s.workers, w, t.workers[w]);
    SameClients(s.net, t.net);
    forall b: nat ensures Total(t)[b] == One(b < |t.net.content|) {
      TotalCount(s, b);
      TotalCount(t, b);
      HandCount(t.workers[w], b);
      HandCount(s.workers[w], b);
      TaskCount(task, b);
      TaskCount(task.(request := None), b);
      TimesOfSum(s.lost, [task.request.value], b);
      SingleCount(task.request.value, b);
    }
  }

  lemma InFlightCount(s: State, a: Ask)
    ensures InFlight(s)[a] == AsksOf(s.net.requests)[a] + AsksOf(s.net.responses)[a] + AsksOfHands(s.workers)[a]
  {
  }

  /** A worker's step keeps the accounts if what leaves its hands is dropped or queued. */
  lemma HandAccounted(s: State, t: State, w: nat)
    requires Accounted(s) && w < |s.workers| == |t.workers| && t.workers == s.workers[w := t.workers[w]]
    requires t.asked == s.asked && t.answered == s.answered && t.net.counter == s.net.counter
    requires t.net.requests == s.net.requests
    requires t.dropped + AskOfHand(t.workers[w]) + AsksOf(t.net.responses)
          == s.dropped + AskOfHand(s.workers[w]) + AsksOf(s.net.responses)
    ensures Accounted(t)
  {
    hide AsksOf, AsksOfHands, OfHands, OfHand, AskOfHand, InFlight, Exchanged;
    HandSet(s.workers, w, t.workers[w]);
    forall a ensures t.asked[a] == InFlight(t)[a] + t.answered[a] + t.dropped[a] {
      InFlightCount(s, a);
      InFlightCount(t, a);
      var asksBefore, asksAfter := AsksOfHands(s.workers), AsksOfHands(t.workers);
      AsksExchanged(asksAfter, asksBefore, AskOfHand(s.workers[w]), AskOfHand(t.workers[w]), a);
      SameCount(t.dropped, AskOfHand(t.workers[w]), AsksOf(t.net.responses),
                s.dropped, AskOfHand(s.workers[w]), AsksOf(s.net.responses), a);
    }
  }

  lemma AsksExchanged(after: multiset<Ask>, before: multiset<Ask>, was: multiset<Ask>, now: multiset<Ask>, a: Ask)
    requires Exchanged(after, before, was, now)
    ensures after[a] + was[a] == before[a] + now[a]
  {
  }

  lemma SameCount(x: multiset<Ask>, y: multiset<Ask>, z: multiset<Ask>,
                  u: multiset<Ask>, v: multiset<Ask>, w: multiset<Ask>, a: Ask)
    requires x + y + z == u + v + w
    ensures x[a] + y[a] + z[a] == u[a] + v[a] + w[a]
  {
    assert (x + y + z)[a] == (u + v + w)[a];
  }

  lemma DecodeAccounted(s: State, w: nat, valid: bool)
    requires Accounted(s) && Enabled(s, Decode(w, valid))
    ensures Accounted(NextDecode(s, w, valid))
  {
    hide AsksOf, Accounted, OfTasks, OfTask;
    HandAccounted(s, NextDecode(s, w, valid), w);
  }

  lemma DecodeKeeps(s: State, w: nat, valid: bool)
    requires Inv(s) && Enabled(s, Decode(w, valid))
    ensures Inv(Next(s, Decode(w, valid)))
  {
    hide Owned, Contents, Accounted;
    DecodeOwned(s, w, valid);
    DecodeContents(s, w, valid);
    DecodeAccounted(s, w, valid);
  }

  /** The buffer a worker writes to is in nobody else's hands. */
  lemma HandOutside(s: State, w: nat)
    requires Inv(s) && w < |s.workers| && s.workers[w].Decoded?
    ensures Outside(s.(workers := s.workers[w := Idle]), s.workers[w].buffer)
  {
    hide Gather, OfTasks, OfTask, OfHands, OfHand, OfClients, Contents, Total, Times, Accounted;
    var b := s.workers[w].buffer;
    HandSet(s.workers, w, Idle);
    HandCount(Idle, b);
    HandCount(s.workers[w], b);
    TotalCount(s, b);
  }

  lemma AnswerContents(s: State, w: nat, fits: bool)
    requires Inv(s) && Enabled(s, Answer(w, fits))
    ensures Contents(Next(s, Answer(w, fits)))
  {
    hide Owned, Accounted, RequestOk, ClientOk, OfTasks, OfHands, OfClients;
    HandBounds(s, w);
    HandOutside(s, w);
    var hand := s.workers[w];
    var after := s.net.content[hand.buffer := if fits then Reply(hand.read) else Blank];
    var s0 := s.(workers := s.workers[w := Idle]);
    ContentsFrame(s0, after, hand.buffer);
    assert HandsOk(s.net.counter, after, s0.workers);
    var t := Next(s, Answer(w, fits));
    forall v | 0 <= v < |t.workers| ensures HandOk(s.net.counter, after, t.workers[v]) {
      assert v != w ==> t.workers[v] == s0.workers[v];
    }
  }

  lemma AnswerOwned(s: State, w: nat, fits: bool)
    requires Inv(s) && Enabled(s, Answer(w, fits))
    ensures Owned(Next(s, Answer(w, fits)))
  {
    hide Gather, OfTasks, OfTask, OfHands, OfHand, OfClients, Contents, Total, Times, Accounted;
    var t := Next(s, Answer(w, fits));
    var hand := s.workers[w];
    HandBounds(s, w);
    HandSet(s.workers, w, t.workers[w]);
    SameClients(s.net, t.net);
    forall b: nat ensures Total(t)[b] == One(b < |t.net.content|) {
      TotalCount(s, b);
      TotalCount(t, b);
      HandCount(t.workers[w], b);
      HandCount(hand, b);
      TaskCount(hand.task, b);
      TaskCount(hand.task.(response := Some(hand.buffer)), b);
      TimesOfSum(s.lost, [hand.buffer], b);
      SingleCount(hand.buffer, b);
    }
  }

  lemma AnswerAccounted(s: State, w: nat, fits: bool)
    requires Accounted(s) && Enabled(s, Answer(w, fits))
    ensures Accounted(NextAnswer(s, w, fits))
  {
    hide AsksOf, Accounted, OfTasks, OfTask;
    HandAccounted(s, NextAnswer(s, w, fits), w);
  }

  lemma AnswerKeeps(s: State, w: nat, fits: bool)
    requires Inv(s) && Enabled(s, Answer(w, fits))
    ensures Inv(Next(s, Answer(w, fits)))
  {
    hide Owned, Contents, Accounted;
    AnswerOwned(s, w, fits);
    AnswerContents(s, w, fits);
    AnswerAccounted(s, w, fits);
  }

  lemma PostContents(s: State, w: nat)
    requires Contents(s) && Enabled(s, Post(w))
    ensures Contents(Next(s, Post(w)))
  {
    hide RequestOk, ClientOk;
    HandBounds(s, w);
  }

  lemma PostOwned(s: State, w: nat)
    requires Inv(s) && Enabled(s, Post(w))
    ensures Owned(Next(s, Post(w)))
  {
    hide Gather, OfTasks, OfTask, OfHands, OfHand, OfClients, Contents, Total, Times, Accounted;
    var t := Next(s, Post(w));
    var task := s.workers[w].task;
    HandBounds(s, w);
    HandSet(s.workers, w, Idle);
    TaskAdded(s.net.responses, task);
    SameClients(s.net, t.net);
    forall b: nat ensures Total(t)[b] == One(b < |t.net.content|) {
      TotalCount(s, b);
      TotalCount(t, b);
      HandCount(Idle, b);
      HandCount(s.workers[w], b);
      TaskCount(task, b);
      TimesOfSum(s.lost, [task.response.value], b);
      SingleCount(task.response.value, b);
    }
  }

  lemma PostAccounted(s: State, w: nat)
    requires Accounted(s) && Enabled(s, Post(w))
    ensures Accounted(NextPost(s, w))
  {
    hide AsksOf, Accounted, OfTasks, OfTask;
    TaskAdded(s.net.responses, s.workers[w].task);
    HandAccounted(s, NextPost(s, w), w);
  }

  lemma PostKeeps(s: State, w: nat)
    requires Inv(s) && Enabled(s, Post(w))
    ensures Inv(Next(s, Post(w)))
  {
    hide Owned, Contents, Accounted;
    PostOwned(s, w);
    PostContents(s, w);
    PostAccounted(s, w);
  }
}
