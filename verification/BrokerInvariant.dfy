/** What every step of the broker keeps. */
module BrokerInvariant {
  import opened Bags
  import opened Broker
  import opened Wrappers

  // ---- who holds which buffers, who works on which request ---------------------------------------

  ghost function Held(o: Option<Buffer>): multiset<Buffer> {
    if o.Some? then multiset{o.value} else multiset{}
  }

  ghost function OfClient(c: Client): multiset<Buffer> {
    multiset{c.rx} + Held(c.tx)
  }

  ghost function OfTask(t: Task): multiset<Buffer> {
    Held(t.request) + Held(t.response)
  }

  ghost function OfHand(h: Hand): multiset<Buffer> {
    match h
    case Idle => multiset{}
    case Taken(t) => OfTask(t)
    case Decoded(t, b, _) => OfTask(t) + multiset{b}
    case Ready(t) => OfTask(t)
  }

  ghost function AskOfHand(h: Hand): multiset<Ask> {
    if h.Idle? then multiset{} else multiset{h.task.ask}
  }

  ghost function ClientParts(cs: map<nat, Client>, n: nat): (r: seq<multiset<Buffer>>)
    ensures |r| == n
  {
    seq(n, i requires 0 <= i < n => if i + 1 in cs then OfClient(cs[i + 1]) else multiset{})
  }

  ghost function TaskParts(ts: seq<Task>): (r: seq<multiset<Buffer>>)
    ensures |r| == |ts|
  {
    seq(|ts|, i requires 0 <= i < |ts| => OfTask(ts[i]))
  }

  ghost function HandParts(ws: seq<Hand>): (r: seq<multiset<Buffer>>)
    ensures |r| == |ws|
  {
    seq(|ws|, i requires 0 <= i < |ws| => OfHand(ws[i]))
  }

  ghost function TaskAsks(ts: seq<Task>): (r: seq<multiset<Ask>>)
    ensures |r| == |ts|
  {
    seq(|ts|, i requires 0 <= i < |ts| => multiset{ts[i].ask})
  }

  ghost function HandAsks(ws: seq<Hand>): (r: seq<multiset<Ask>>)
    ensures |r| == |ws|
  {
    seq(|ws|, i requires 0 <= i < |ws| => AskOfHand(ws[i]))
  }

  ghost function OfClients(n: Net): multiset<Buffer> { Gather(ClientParts(n.clients, n.counter)) }

  ghost function OfTasks(ts: seq<Task>): multiset<Buffer> { Gather(TaskParts(ts)) }

  ghost function OfHands(ws: seq<Hand>): multiset<Buffer> { Gather(HandParts(ws)) }

  ghost function AsksOf(ts: seq<Task>): multiset<Ask> { Gather(TaskAsks(ts)) }

  ghost function AsksOfHands(ws: seq<Hand>): multiset<Ask> { Gather(HandAsks(ws)) }

  /** All references to buffers, wherever they are. */
  ghost function Total(s: State): multiset<Buffer> {
    multiset(s.net.pool) + OfClients(s.net) + OfTasks(s.net.requests) + OfTasks(s.net.responses)
    + OfHands(s.workers) + multiset(s.lost)
  }

  ghost function Times(bs: seq<Buffer>, x: Buffer): nat { multiset(bs)[x] }

  lemma TimesOfSum(bs: seq<Buffer>, cs: seq<Buffer>, x: Buffer)
    ensures Times(bs + cs, x) == Times(bs, x) + Times(cs, x)
  {
    assert multiset(bs + cs) == multiset(bs) + multiset(cs);
  }

  lemma TotalCount(s: State, x: Buffer)
    ensures Total(s)[x] == Times(s.net.pool, x) + OfClients(s.net)[x] + OfTasks(s.net.requests)[x]
                         + OfTasks(s.net.responses)[x] + OfHands(s.workers)[x] + Times(s.lost, x)
  {
  }

  ghost function InFlight(s: State): multiset<Ask> {
    AsksOf(s.net.requests) + AsksOf(s.net.responses) + AsksOfHands(s.workers)
  }

  // ---- the invariant -----------------------------------------------------------------------------

  /** Every allocated buffer is referred to from exactly one place. */
  ghost predicate Owned(s: State) {
    forall b: nat :: Total(s)[b] == One(b < |s.net.content|)
  }

  ghost predicate Holds(content: seq<Content>, b: Buffer, c: Content) {
    b < |content| && content[b] == c
  }

  ghost predicate RequestOk(n: nat, content: seq<Content>, t: Task) {
    && t.request.Some? && t.response.None?
    && Holds(content, t.request.value, Message(t.ask))
    && 1 <= t.ask.handle <= n
  }

  ghost predicate ResponseOk(n: nat, content: seq<Content>, t: Task) {
    && t.request.None? && t.response.Some?
    && Holds(content, t.response.value, Reply(t.ask))
    && 1 <= t.ask.handle <= n
  }

  ghost predicate HandOk(n: nat, content: seq<Content>, h: Hand) {
    match h
    case Idle => true
    case Taken(t) => RequestOk(n, content, t)
    case Decoded(t, b, a) =>
      && t.request.None? && t.response.None? && a == t.ask
      && Holds(content, b, Message(a)) && 1 <= t.ask.handle <= n
    case Ready(t) => ResponseOk(n, content, t)
  }

  /** Write interest is on exactly while a response to a request from that very connection is unsent. */
  ghost predicate ClientOk(asked: multiset<Ask>, answered: multiset<Ask>, content: seq<Content>, h: nat, c: Client) {
    && c.rx < |content|
    && (c.tx.Some? ==> c.tx.value < |content| && (c.writing <==> content[c.tx.value].Reply?))
    && (c.tx.None? ==> !c.writing)
    && (c.writing ==> var a := content[c.tx.value].ask; a.handle == h && a in answered)
    && (forall k: nat :: Ask(h, k) in asked ==> k < c.heard)
  }

  ghost predicate RequestsOk(n: nat, content: seq<Content>, ts: seq<Task>) {
    forall i :: 0 <= i < |ts| ==> RequestOk(n, content, ts[i])
  }

  ghost predicate ResponsesOk(n: nat, content: seq<Content>, ts: seq<Task>) {
    forall i :: 0 <= i < |ts| ==> ResponseOk(n, content, ts[i])
  }

  ghost predicate HandsOk(n: nat, content: seq<Content>, ws: seq<Hand>) {
    forall w :: 0 <= w < |ws| ==> HandOk(n, content, ws[w])
  }

  ghost predicate ClientsOk(n: nat, asked: multiset<Ask>, answered: multiset<Ask>, content: seq<Content>,
                            cs: map<nat, Client>) {
    forall h <- cs :: 1 <= h <= n && ClientOk(asked, answered, content, h, cs[h])
  }

  ghost predicate Contents(s: State) {
    && RequestsOk(s.net.counter, s.net.content, s.net.requests)
    && ResponsesOk(s.net.counter, s.net.content, s.net.responses)
    && HandsOk(s.net.counter, s.net.content, s.workers)
    && ClientsOk(s.net.counter, s.asked, s.answered, s.net.content, s.net.clients)
  }

  /** No two requests are the same, and each is in flight, answered or dropped, exactly one of these. */
  ghost predicate Accounted(s: State) {
    && (forall a :: s.asked[a] == InFlight(s)[a] + s.answered[a] + s.dropped[a])
    && (forall a :: a in s.asked ==> s.asked[a] == 1 && 1 <= a.handle <= s.net.counter)
  }

  ghost predicate Bounded(s: State) {
    |s.net.requests| <= s.net.requestRoom && |s.net.responses| <= s.net.responseRoom
  }

  ghost predicate Inv(s: State) {
    Owned(s) && Contents(s) && Accounted(s) && Bounded(s)
  }

  // ---- sums under updates ------------------------------------------------------------------------

  lemma ClientSet(cs: map<nat, Client>, n: nat, h: nat, c: Client)
    requires h in cs && 1 <= h <= n
    ensures Exchanged(Gather(ClientParts(cs[h := c], n)), Gather(ClientParts(cs, n)), OfClient(cs[h]), OfClient(c))
  {
    hide Gather, OfClient, Exchanged;
    GatherUpdate(ClientParts(cs, n), h - 1, OfClient(c));
    var l, r := ClientParts(cs[h := c], n), ClientParts(cs, n)[h - 1 := OfClient(c)];
    assert forall i :: 0 <= i < n ==> l[i] == r[i];
    assert l == r;
    ExchangedIf(Gather(l), Gather(ClientParts(cs, n)), OfClient(cs[h]), OfClient(c));
  }

  lemma ClientRemoved(cs: map<nat, Client>, n: nat, h: nat)
    requires h in cs && 1 <= h <= n
    ensures Exchanged(Gather(ClientParts(cs - {h}, n)), Gather(ClientParts(cs, n)), OfClient(cs[h]), multiset{})
  {
    hide Gather, OfClient, Exchanged;
    GatherUpdate(ClientParts(cs, n), h - 1, multiset{});
    var l, r := ClientParts(cs - {h}, n), ClientParts(cs, n)[h - 1 := multiset{}];
    assert forall i :: 0 <= i < n ==> l[i] == r[i];
    assert l == r;
    ExchangedIf(Gather(l), Gather(ClientParts(cs, n)), OfClient(cs[h]), multiset{});
  }

  lemma ClientAdded(cs: map<nat, Client>, n: nat, c: Client)
    ensures Gather(ClientParts(cs[n + 1 := c], n + 1)) == Gather(ClientParts(cs, n)) + OfClient(c)
  {
    hide Gather, OfClient;
    GatherAppend(ClientParts(cs, n), OfClient(c));
    var l, r := ClientParts(cs[n + 1 := c], n + 1), ClientParts(cs, n) + [OfClient(c)];
    assert forall i :: 0 <= i <= n ==> l[i] == r[i];
    assert l == r;
  }

  lemma TaskAdded(ts: seq<Task>, t: Task)
    ensures OfTasks(ts + [t]) == OfTasks(ts) + OfTask(t)
    ensures AsksOf(ts + [t]) == AsksOf(ts) + multiset{t.ask}
  {
    hide Gather, OfTask;
    GatherAppend(TaskParts(ts), OfTask(t));
    assert TaskParts(ts + [t]) == TaskParts(ts) + [OfTask(t)];
    GatherAppend(TaskAsks(ts), multiset{t.ask});
    assert TaskAsks(ts + [t]) == TaskAsks(ts) + [multiset{t.ask}];
  }

  lemma TaskTaken(ts: seq<Task>)
    requires |ts| > 0
    ensures OfTasks(ts) == OfTask(ts[0]) + OfTasks(ts[1..])
    ensures AsksOf(ts) == multiset{ts[0].ask} + AsksOf(ts[1..])
  {
    hide OfTask;
    assert TaskParts(ts)[1..] == TaskParts(ts[1..]);
    assert TaskAsks(ts)[1..] == TaskAsks(ts[1..]);
  }

  lemma HandSet(ws: seq<Hand>, w: nat, h: Hand)
    requires w < |ws|
    ensures Exchanged(OfHands(ws[w := h]), OfHands(ws), OfHand(ws[w]), OfHand(h))
    ensures Exchanged(AsksOfHands(ws[w := h]), AsksOfHands(ws), AskOfHand(ws[w]), AskOfHand(h))
  {
    hide Gather, OfHand, Exchanged;
    GatherUpdate(HandParts(ws), w, OfHand(h));
    assert HandParts(ws[w := h]) == HandParts(ws)[w := OfHand(h)];
    GatherUpdate(HandAsks(ws), w, AskOfHand(h));
    assert HandAsks(ws[w := h]) == HandAsks(ws)[w := AskOfHand(h)];
    ExchangedIf(OfHands(ws[w := h]), OfHands(ws), OfHand(ws[w]), OfHand(h));
    ExchangedIf(AsksOfHands(ws[w := h]), AsksOfHands(ws), AskOfHand(ws[w]), AskOfHand(h));
  }

  lemma Pooled(o: Option<Buffer>)
    ensures multiset(Returned(o)) == Held(o)
  {
  }

  // ---- a buffer that changes is nobody else's -----------------------------------------------------

  ghost predicate SameBut(before: seq<Content>, after: seq<Content>, b: Buffer) {
    |before| <= |after| && forall x :: 0 <= x < |before| && x != b ==> after[x] == before[x]
  }

  lemma RequestsFrame(n: nat, before: seq<Content>, after: seq<Content>, b: Buffer, ts: seq<Task>)
    requires RequestsOk(n, before, ts) && SameBut(before, after, b) && b !in OfTasks(ts)
    ensures RequestsOk(n, after, ts)
  {
    forall i | 0 <= i < |ts| ensures RequestOk(n, after, ts[i]) {
      GatherIn(TaskParts(ts), i);
      assert ts[i].request.value in TaskParts(ts)[i];
    }
  }

  lemma ResponsesFrame(n: nat, before: seq<Content>, after: seq<Content>, b: Buffer, ts: seq<Task>)
    requires ResponsesOk(n, before, ts) && SameBut(before, after, b) && b !in OfTasks(ts)
    ensures ResponsesOk(n, after, ts)
  {
    forall i | 0 <= i < |ts| ensures ResponseOk(n, after, ts[i]) {
      GatherIn(TaskParts(ts), i);
      assert ts[i].response.value in TaskParts(ts)[i];
    }
  }

  lemma HandsFrame(n: nat, before: seq<Content>, after: seq<Content>, b: Buffer, ws: seq<Hand>)
    requires HandsOk(n, before, ws) && SameBut(before, after, b) && b !in OfHands(ws)
    ensures HandsOk(n, after, ws)
  {
    forall w | 0 <= w < |ws| ensures HandOk(n, after, ws[w]) {
      GatherIn(HandParts(ws), w);
      assert b !in OfHand(ws[w]);
    }
  }

  lemma ClientFrame(asked: multiset<Ask>, answered: multiset<Ask>, before: seq<Content>, after: seq<Content>,
                    b: Buffer, h: nat, c: Client)
    requires ClientOk(asked, answered, before, h, c) && SameBut(before, after, b) && b !in OfClient(c)
    ensures ClientOk(asked, answered, after, h, c)
  {
    if c.tx.Some? {
      assert after[c.tx.value] == before[c.tx.value];
    }
  }

  lemma ClientPartIn(cs: map<nat, Client>, n: nat, h: nat)
    requires h in cs && 1 <= h <= n
    ensures OfClient(cs[h]) <= Gather(ClientParts(cs, n))
  {
    hide Gather, OfClient;
    GatherIn(ClientParts(cs, n), h - 1);
  }

  lemma ClientsFrame(n: nat, asked: multiset<Ask>, answered: multiset<Ask>, before: seq<Content>,
                     after: seq<Content>, b: Buffer, cs: map<nat, Client>)
    requires ClientsOk(n, asked, answered, before, cs) && SameBut(before, after, b)
    requires b !in Gather(ClientParts(cs, n))
    ensures ClientsOk(n, asked, answered, after, cs)
  {
    hide Gather, OfClient, ClientOk, SameBut;
    forall h <- cs ensures ClientOk(asked, answered, after, h, cs[h]) {
      ClientPartIn(cs, n, h);
      ClientFrame(asked, answered, before, after, b, h, cs[h]);
    }
  }

  ghost predicate Outside(s: State, b: Buffer) {
    && b !in OfClients(s.net) && b !in OfTasks(s.net.requests) && b !in OfTasks(s.net.responses)
    && b !in OfHands(s.workers)
  }

  lemma ContentsFrame(s: State, after: seq<Content>, b: Buffer)
    requires Contents(s) && Outside(s, b) && SameBut(s.net.content, after, b)
    ensures Contents(s.(net := s.net.(content := after)))
  {
    hide SameBut, RequestOk, ResponseOk, HandOk, ClientOk, Gather;
    RequestsFrame(s.net.counter, s.net.content, after, b, s.net.requests);
    ResponsesFrame(s.net.counter, s.net.content, after, b, s.net.responses);
    HandsFrame(s.net.counter, s.net.content, after, b, s.workers);
    ClientsFrame(s.net.counter, s.asked, s.answered, s.net.content, after, b, s.net.clients);
  }

  /** Pooled buffers and those not yet allocated belong to nobody. */
  lemma PooledOutside(s: State, b: Buffer)
    requires Owned(s) && (b in s.net.pool || b >= |s.net.content|)
    ensures Outside(s, b)
  {
    assert Total(s)[b] == One(b < |s.net.content|);
    assert b in s.net.pool ==> multiset(s.net.pool)[b] >= 1;
  }

  lemma PoolAllocated(s: State)
    requires Owned(s)
    ensures PoolOk(s.net)
  {
    forall i | 0 <= i < |s.net.pool| ensures s.net.pool[i] < |s.net.content| {
      var b := s.net.pool[i];
      assert b in multiset(s.net.pool) && Total(s)[b] > 0;
    }
  }

  ghost function One(b: bool): nat { if b then 1 else 0 }

  ghost predicate PoolMoved(n: Net, n1: Net, b: Buffer) {
    forall x: nat ::
      Times(n1.pool, x) + One(x == b) + One(x < |n.content|) == Times(n.pool, x) + One(x < |n1.content|)
  }

  /** Taking b moves it out of the pool or allocates it, and changes no other buffer. */
  ghost predicate Aquired(n: Net, n1: Net, b: Buffer) {
    && n1 == n.(pool := n1.pool, content := n1.content)
    && (b in n.pool || b == |n.content|)
    && (forall x <- n1.pool :: x in n.pool)
    && SameBut(n.content, n1.content, b) && Holds(n1.content, b, Blank)
    && PoolMoved(n, n1, b)
  }

  lemma AquireTaken(n: Net)
    requires PoolOk(n)
    ensures var (n1, b) := Aquire(n); Aquired(n, n1, b) && PoolOk(n1)
  {
    if n.pool != [] {
      PopMultiset(n.pool);
    }
  }
}
