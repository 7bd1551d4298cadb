/** Writing requests and responses to a byte buffer, and reading them from one. */
module MessageBuffers {
  import opened Buffers
  import opened Codec
  import opened Messages
  import opened Wrappers

  /** The bytes in done have been put from p0 on, or an exception was thrown while putting them. */
  ghost predicate Writing(b: ByteBuffer, s0: seq<Byte>, p0: nat, done: seq<Byte>, ok: bool)
    reads b, b.data
  {
    b.Valid() && Wrote(s0, p0, b.limit, done, ok, b.Contents(), b.position)
  }

  // ---- putting one more part; after an exception nothing more is put -----------------------------

  method ThenInt(b: ByteBuffer, n: Int32, ok0: bool, ghost s0: seq<Byte>, ghost p0: nat, ghost done: seq<Byte>)
    returns (ok: bool)
    requires Writing(b, s0, p0, done, ok0)
    modifies b`position, b.data
    ensures Writing(b, s0, p0, done + EncInt(n), ok)
  {
    hide Wrote, EncInt;
    ok := false;
    ghost var s1, p1 := b.Contents(), b.position;
    if ok0 {
      ok := b.PutInt(n);
    }
    WroteTwice(s0, p0, b.limit, done, ok0, s1, p1, EncInt(n), ok, b.Contents(), b.position);
  }

  method ThenLong(b: ByteBuffer, n: Int64, ok0: bool, ghost s0: seq<Byte>, ghost p0: nat, ghost done: seq<Byte>)
    returns (ok: bool)
    requires Writing(b, s0, p0, done, ok0)
    modifies b`position, b.data
    ensures Writing(b, s0, p0, done + EncLong(n), ok)
  {
    hide Wrote, EncLong;
    ok := false;
    ghost var s1, p1 := b.Contents(), b.position;
    if ok0 {
      ok := b.PutLong(n);
    }
    WroteTwice(s0, p0, b.limit, done, ok0, s1, p1, EncLong(n), ok, b.Contents(), b.position);
  }

  method ThenBoolean(b: ByteBuffer, x: bool, ok0: bool, ghost s0: seq<Byte>, ghost p0: nat, ghost done: seq<Byte>)
    returns (ok: bool)
    requires Writing(b, s0, p0, done, ok0)
    modifies b`position, b.data
    ensures Writing(b, s0, p0, done + EncBoolean(x), ok)
  {
    hide Wrote;
    ok := false;
    ghost var s1, p1 := b.Contents(), b.position;
    if ok0 {
      ok := b.PutBoolean(x);
    }
    WroteTwice(s0, p0, b.limit, done, ok0, s1, p1, EncBoolean(x), ok, b.Contents(), b.position);
  }

  method ThenText(b: ByteBuffer, t: Text, ok0: bool, ghost s0: seq<Byte>, ghost p0: nat, ghost done: seq<Byte>)
    returns (ok: bool)
    requires Writing(b, s0, p0, done, ok0)
    modifies b`position, b.data
    ensures Writing(b, s0, p0, done + EncText(t), ok)
  {
    hide Wrote, EncText;
    ok := false;
    ghost var s1, p1 := b.Contents(), b.position;
    if ok0 {
      ok := b.PutText(t);
    }
    WroteTwice(s0, p0, b.limit, done, ok0, s1, p1, EncText(t), ok, b.Contents(), b.position);
  }

  method ThenNullableLong(
    b: ByteBuffer, o: Option<Int64>, ok0: bool, ghost s0: seq<Byte>, ghost p0: nat, ghost done: seq<Byte>)
    returns (ok: bool)
    requires Writing(b, s0, p0, done, ok0)
    modifies b`position, b.data
    ensures Writing(b, s0, p0, done + EncNullableLong(o), ok)
  {
    hide Wrote, EncNullableLong;
    ok := false;
    ghost var s1, p1 := b.Contents(), b.position;
    if ok0 {
      ok := b.PutNullableLong(o);
    }
    WroteTwice(s0, p0, b.limit, done, ok0, s1, p1, EncNullableLong(o), ok, b.Contents(), b.position);
  }

  method ThenNullableInt(
    b: ByteBuffer, o: Option<Int32>, ok0: bool, ghost s0: seq<Byte>, ghost p0: nat, ghost done: seq<Byte>)
    returns (ok: bool)
    requires Writing(b, s0, p0, done, ok0)
    modifies b`position, b.data
    ensures Writing(b, s0, p0, done + EncNullableInt(o), ok)
  {
    hide Wrote, EncNullableInt;
    ok := false;
    ghost var s1, p1 := b.Contents(), b.position;
    if ok0 {
      ok := b.PutNullableInt(o);
    }
    WroteTwice(s0, p0, b.limit, done, ok0, s1, p1, EncNullableInt(o), ok, b.Contents(), b.position);
  }

  /** A queue or client, or null. */
  method ThenNamed(
    b: ByteBuffer, o: Option<Named>, ok0: bool, ghost s0: seq<Byte>, ghost p0: nat, ghost done: seq<Byte>)
    returns (ok: bool)
    requires Writing(b, s0, p0, done, ok0)
    modifies b`position, b.data
    ensures Writing(b, s0, p0, done + EncNullableNamed(o), ok)
  {
    hide Wrote, EncLong, EncText;
    if o.None? {
      ok := ThenBoolean(b, false, ok0, s0, p0, done);
      return;
    }
    ok := ThenBoolean(b, true, ok0, s0, p0, done);
    ok := ThenLong(b, o.value.id, ok, s0, p0, done + [TRUE_BYTE]);
    ok := ThenText(b, o.value.name, ok, s0, p0, done + [TRUE_BYTE] + EncLong(o.value.id));
    assert done + [TRUE_BYTE] + EncLong(o.value.id) + EncText(o.value.name) == done + EncNullableNamed(o);
  }

  method ThenMessage(
    b: ByteBuffer, o: Option<MessageDto>, ok0: bool, ghost s0: seq<Byte>, ghost p0: nat, ghost done: seq<Byte>)
    returns (ok: bool)
    requires Writing(b, s0, p0, done, ok0)
    modifies b`position, b.data
    ensures Writing(b, s0, p0, done + EncNullable(o, EncMessageDto), ok)
  {
    hide Wrote, EncInt, EncLong, EncText, EncNullableNamed, EncNullableInt;
    if o.None? {
      ok := ThenBoolean(b, false, ok0, s0, p0, done);
      return;
    }
    var m := o.value;
    ok := ThenBoolean(b, true, ok0, s0, p0, done);
    ghost var d := done + [TRUE_BYTE];
    ok := ThenLong(b, m.id, ok, s0, p0, d);
    d := d + EncLong(m.id);
    ok := ThenNamed(b, m.queue, ok, s0, p0, d);
    d := d + EncNullableNamed(m.queue);
    ok := ThenText(b, m.content, ok, s0, p0, d);
    d := d + EncText(m.content);
    ok := ThenInt(b, m.prio, ok, s0, p0, d);
    d := d + EncInt(m.prio);
    ok := ThenNamed(b, m.sender, ok, s0, p0, d);
    d := d + EncNullableNamed(m.sender);
    ok := ThenNullableInt(b, m.context, ok, s0, p0, d);
    d := d + EncNullableInt(m.context);
    assert d == done + EncNullable(o, EncMessageDto);
  }

  method ThenQueryInfo(
    b: ByteBuffer, o: Option<QueryInfo>, ok0: bool, ghost s0: seq<Byte>, ghost p0: nat, ghost done: seq<Byte>)
    returns (ok: bool)
    requires Writing(b, s0, p0, done, ok0)
    modifies b`position, b.data
    ensures Writing(b, s0, p0, done + EncNullable(o, EncQueryInfo), ok)
  {
    hide Wrote, EncNullableNamed, EncNullableInt;
    if o.None? {
      ok := ThenBoolean(b, false, ok0, s0, p0, done);
      return;
    }
    var q := o.value;
    ok := ThenBoolean(b, true, ok0, s0, p0, done);
    ghost var d := done + [TRUE_BYTE];
    ok := ThenNamed(b, q.queue, ok, s0, p0, d);
    d := d + EncNullableNamed(q.queue);
    ok := ThenNamed(b, q.sender, ok, s0, p0, d);
    d := d + EncNullableNamed(q.sender);
    ok := ThenBoolean(b, q.shouldOrderByPriority, ok, s0, p0, d);
    d := d + EncBoolean(q.shouldOrderByPriority);
    ok := ThenNullableInt(b, q.context, ok, s0, p0, d);
    d := d + EncNullableInt(q.context);
    assert d == done + EncNullable(o, EncQueryInfo);
  }

  lemma {:induction false} EncAllSplit<T>(xs: seq<T>, i: nat, enc: T -> seq<Byte>)
    requires i < |xs|
    ensures EncAll(xs[..i + 1], enc) == EncAll(xs[..i], enc) + enc(xs[i])
  {
    if i == 0 {
      assert xs[..1][1..] == [] && xs[..0] == [];
    } else {
      EncAllSplit(xs[1..], i - 1, enc);
      assert xs[..i + 1][1..] == xs[1..][..i] && xs[..i][1..] == xs[1..][..i - 1];
    }
  }

  method ThenIds(b: ByteBuffer, ids: Ids, ok0: bool, ghost s0: seq<Byte>, ghost p0: nat, ghost done: seq<Byte>)
    returns (ok: bool)
    requires Writing(b, s0, p0, done, ok0)
    modifies b`position, b.data
    ensures Writing(b, s0, p0, done + EncInt(|ids|) + EncAll(ids, EncNullableLong), ok)
  {
    hide Wrote, EncInt, EncNullableLong, EncAll;
    ok := ThenInt(b, |ids|, ok0, s0, p0, done);
    ghost var d := done + EncInt(|ids|);
    EncAllNone(EncNullableLong);
    assert d + [] == d && ids[..0] == [];
    for i := 0 to |ids|
      invariant Writing(b, s0, p0, d + EncAll(ids[..i], EncNullableLong), ok)
    {
      ok := ThenNullableLong(b, ids[i], ok, s0, p0, d + EncAll(ids[..i], EncNullableLong));
      EncAllSplit(ids, i, EncNullableLong);
      assert d + EncAll(ids[..i], EncNullableLong) + EncNullableLong(ids[i])
          == d + EncAll(ids[..i + 1], EncNullableLong);
    }
    assert ids[..|ids|] == ids;
  }

  lemma EncAllNone<T>(enc: T -> seq<Byte>)
    ensures EncAll([], enc) == []
  {
  }

  method ThenQueues(b: ByteBuffer, queues: Queues, ok0: bool, ghost s0: seq<Byte>, ghost p0: nat, ghost done: seq<Byte>)
    returns (ok: bool)
    requires Writing(b, s0, p0, done, ok0)
    modifies b`position, b.data
    ensures Writing(b, s0, p0, done + EncInt(|queues|) + EncAll(queues, EncNullableNamed), ok)
  {
    hide Wrote, EncInt, EncNullableNamed, EncAll;
    ok := ThenInt(b, |queues|, ok0, s0, p0, done);
    ghost var d := done + EncInt(|queues|);
    EncAllNone(EncNullableNamed);
    assert d + [] == d && queues[..0] == [];
    for i := 0 to |queues|
      invariant Writing(b, s0, p0, d + EncAll(queues[..i], EncNullableNamed), ok)
    {
      ok := ThenNamed(b, queues[i], ok, s0, p0, d + EncAll(queues[..i], EncNullableNamed));
      EncAllSplit(queues, i, EncNullableNamed);
      assert d + EncAll(queues[..i], EncNullableNamed) + EncNullableNamed(queues[i])
          == d + EncAll(queues[..i + 1], EncNullableNamed);
    }
    assert queues[..|queues|] == queues;
  }

  // ---- whole requests and responses --------------------------------------------------------------

  method ThenSendClientMessage(b: ByteBuffer, r: Request, ok0: bool, ghost s0: seq<Byte>, ghost p0: nat,
                               ghost done: seq<Byte>)
    returns (ok: bool)
    requires Writing(b, s0, p0, done, ok0) && r.SendClientMessage?
    modifies b`position, b.data
    ensures Writing(b, s0, p0, done + EncRequestBody(r), ok)
  {
    hide Wrote, EncInt, EncLong, EncText, EncNullableLong;
    ghost var d := done;
    ok := ThenLong(b, r.clientId, ok0, s0, p0, d);
    d := d + EncLong(r.clientId);
    ok := ThenInt(b, r.prio, ok, s0, p0, d);
    d := d + EncInt(r.prio);
    ok := ThenBoolean(b, r.conversation, ok, s0, p0, d);
    d := d + EncBoolean(r.conversation);
    ok := ThenNullableLong(b, r.context, ok, s0, p0, d);
    d := d + EncNullableLong(r.context);
    ok := ThenText(b, r.content, ok, s0, p0, d);
    d := d + EncText(r.content);
    assert d == done + EncRequestBody(r);
  }

  method ThenSendMessage(b: ByteBuffer, r: Request, ok0: bool, ghost s0: seq<Byte>, ghost p0: nat,
                         ghost done: seq<Byte>)
    returns (ok: bool)
    requires Writing(b, s0, p0, done, ok0) && r.SendMessage?
    modifies b`position, b.data
    ensures Writing(b, s0, p0, done + EncRequestBody(r), ok)
  {
    hide Wrote, EncInt, EncText, EncNullableLong, EncAll;
    ok := ThenIds(b, r.queueIds, ok0, s0, p0, done);
    ghost var d := done + EncInt(|r.queueIds|) + EncAll(r.queueIds, EncNullableLong);
    ok := ThenText(b, r.content, ok, s0, p0, d);
    d := d + EncText(r.content);
    ok := ThenInt(b, r.prio, ok, s0, p0, d);
    d := d + EncInt(r.prio);
    assert d == done + EncRequestBody(r);
  }

  method ThenRequestBody(b: ByteBuffer, r: Request, ok0: bool, ghost s0: seq<Byte>, ghost p0: nat,
                         ghost done: seq<Byte>)
    returns (ok: bool)
    requires Writing(b, s0, p0, done, ok0)
    modifies b`position, b.data
    ensures Writing(b, s0, p0, done + EncRequestBody(r), ok)
  {
    hide Writing, EncInt, EncText, EncNullableLong, EncNullableNamed, EncNullable, EncAll;
    match r
    case CreateQueue(name) => ok := ThenText(b, name, ok0, s0, p0, done);
    case DeleteQueue(queue) => ok := ThenNamed(b, queue, ok0, s0, p0, done);
    case DequeueMessage(info) => ok := ThenQueryInfo(b, info, ok0, s0, p0, done);
    case PeekMessage(info) => ok := ThenQueryInfo(b, info, ok0, s0, p0, done);
    case QueuesWithPending(maxNumQueues) => ok := ThenInt(b, maxNumQueues, ok0, s0, p0, done);
    case Registration(name) => ok := ThenText(b, name, ok0, s0, p0, done);
    case SendClientMessage(_, _, _, _, _) => ok := ThenSendClientMessage(b, r, ok0, s0, p0, done);
    case SendMessage(_, _, _) => ok := ThenSendMessage(b, r, ok0, s0, p0, done);
    case LookupQueue(name, client) =>
      ok := ThenText(b, name, ok0, s0, p0, done);
      ok := ThenNullableLong(b, client, ok, s0, p0, done + EncText(name));
      assert done + EncText(name) + EncNullableLong(client) == done + EncRequestBody(r);
    case LookupClient(name) => ok := ThenText(b, name, ok0, s0, p0, done);
  }

  method ThenResponseBody(b: ByteBuffer, r: Response, ok0: bool, ghost s0: seq<Byte>, ghost p0: nat,
                          ghost done: seq<Byte>)
    returns (ok: bool)
    requires Writing(b, s0, p0, done, ok0)
    modifies b`position, b.data
    ensures Writing(b, s0, p0, done + EncResponseBody(r), ok)
  {
    hide Writing, EncInt, EncText, EncNullableLong, EncNullableNamed, EncNullable, EncAll;
    ok := ok0;
    assert done + [] == done;
    match r
    case ClientFound(client) => ok := ThenNamed(b, client, ok0, s0, p0, done);
    case QueueFound(queue) => ok := ThenNamed(b, queue, ok0, s0, p0, done);
    case QueueDeleted =>
    case ExceptionThrown(exception) => ok := ThenText(b, exception, ok0, s0, p0, done);
    case MessageFound(message) => ok := ThenMessage(b, message, ok0, s0, p0, done);
    case PendingQueues(numMessagesInMyQueue, queues) =>
      ok := ThenInt(b, numMessagesInMyQueue, ok0, s0, p0, done);
      ghost var d := done + EncInt(numMessagesInMyQueue);
      ok := ThenQueues(b, queues, ok, s0, p0, d);
      assert d + EncInt(|queues|) + EncAll(queues, EncNullableNamed) == done + EncResponseBody(r);
    case Registered(client, isNewClient) =>
      ok := ThenNamed(b, client, ok0, s0, p0, done);
      ok := ThenBoolean(b, isNewClient, ok, s0, p0, done + EncNullableNamed(client));
      assert done + EncNullableNamed(client) + EncBoolean(isNewClient) == done + EncResponseBody(r);
    case ClientMessageSent(context) => ok := ThenNullableLong(b, context, ok0, s0, p0, done);
    case MessageSent =>
  }

  // ---- the header is written last ----------------------------------------------------------------

  function Frame(payload: seq<Byte>): seq<Byte>
    requires |payload| <= INT_MAX
  {
    EncInt(|payload|) + payload
  }

  /** A placeholder and the payload have been put: putting the length in its place makes a frame of it. */
  lemma BackPatched(s0: seq<Byte>, p: nat, payload: seq<Byte>)
    requires |payload| <= INT_MAX && p + 4 + |payload| <= |s0|
    ensures Overwritten(Overwritten(s0, p, EncInt(0) + payload), p, EncInt(|payload|))
         == Overwritten(s0, p, Frame(payload))
  {
    hide EncInt;
    var e := EncInt(|payload|);
    var t := Overwritten(s0, p, EncInt(0) + payload);
    assert t[..p] == s0[..p];
    assert t[p + 4..] == payload + s0[p + 4 + |payload|..];
    assert Overwritten(t, p, e) == s0[..p] + e + (payload + s0[p + 4 + |payload|..]);
  }

  /**
   Writes length and payload. All or nothing in the sense of the exception: it is thrown if and only if the frame
   does not fit in front of the limit; bytes in front of the position are never touched.
   */
  method SerializeRequestWithHeader(r: Request, b: ByteBuffer) returns (ok: bool)
    requires b.Valid()
    modifies b`position, b.data
    ensures b.Valid()
    ensures ok <==> old(b.position) + 4 + |EncRequest(r)| <= b.limit
    ensures ok ==> |EncRequest(r)| <= INT_MAX
                   && b.Contents() == Overwritten(old(b.Contents()), old(b.position), Frame(EncRequest(r)))
                   && b.position == old(b.position) + 4 + |EncRequest(r)|
    ensures b.Contents()[..old(b.position)] == old(b.Contents())[..old(b.position)]
  {
    hide EncInt, EncRequestBody, RequestId;
    ghost var s0, p0 := b.Contents(), b.position;
    var startPosition := b.position;
    ok := b.PutInt(0);
    var startPayload := b.position;
    ok := ThenInt(b, RequestId(r), ok, s0, p0, EncInt(0));
    ok := ThenRequestBody(b, r, ok, s0, p0, EncInt(0) + EncInt(RequestId(r)));
    assert EncInt(0) + EncInt(RequestId(r)) + EncRequestBody(r) == EncInt(0) + EncRequest(r);
    if ok {
      PatchHeader(b, startPosition, startPayload, s0, EncRequest(r));
    }
  }

  method SerializeResponseWithHeader(r: Response, b: ByteBuffer) returns (ok: bool)
    requires b.Valid()
    modifies b`position, b.data
    ensures b.Valid()
    ensures ok <==> old(b.position) + 4 + |EncResponse(r)| <= b.limit
    ensures ok ==> |EncResponse(r)| <= INT_MAX
                   && b.Contents() == Overwritten(old(b.Contents()), old(b.position), Frame(EncResponse(r)))
                   && b.position == old(b.position) + 4 + |EncResponse(r)|
    ensures b.Contents()[..old(b.position)] == old(b.Contents())[..old(b.position)]
  {
    hide EncInt, EncResponseBody, ResponseId;
    ghost var s0, p0 := b.Contents(), b.position;
    var startPosition := b.position;
    ok := b.PutInt(0);
    var startPayload := b.position;
    ok := ThenInt(b, ResponseId(r), ok, s0, p0, EncInt(0));
    ok := ThenResponseBody(b, r, ok, s0, p0, EncInt(0) + EncInt(ResponseId(r)));
    assert EncInt(0) + EncInt(ResponseId(r)) + EncResponseBody(r) == EncInt(0) + EncResponse(r);
    if ok {
      PatchHeader(b, startPosition, startPayload, s0, EncResponse(r));
    }
  }

  /** Goes back to the placeholder, writes the number of payload bytes, and returns to the end. */
  method PatchHeader(b: ByteBuffer, startPosition: nat, startPayload: nat, ghost s0: seq<Byte>,
                     ghost payload: seq<Byte>)
    requires Writing(b, s0, startPosition, EncInt(0) + payload, true) && startPayload == startPosition + 4
    modifies b`position, b.data
    ensures b.Valid() && |payload| <= INT_MAX
    ensures b.Contents() == Overwritten(s0, startPosition, Frame(payload))
    ensures b.position == startPosition + 4 + |payload|
    ensures b.Contents()[..startPosition] == s0[..startPosition]
  {
    hide EncInt;
    var endPosition := b.position;
    var numBytes := endPosition - startPayload;
    b.position := startPosition;
    var _ := b.PutInt(numBytes);
    b.position := endPosition;
    BackPatched(s0, startPosition, payload);
  }
}
