/** Reading requests and responses from a byte buffer. None stands for an exception. */
module MessageReading {
  import opened Buffers
  import opened Codec
  import opened Messages
  import opened Wrappers

  method GetNullableNamed(b: ByteBuffer) returns (r: Option<Option<Named>>)
    requires b.Valid()
    modifies b`position
    ensures b.Valid() && b.Got(old(b.Contents()), DecNullableNamed(old(b.Remaining())), r)
  {
    hide DecBoolean, DecLong, DecText;
    var present :- b.GetBoolean();
    if !present {
      return Some(None);
    }
    var id :- b.GetLong();
    var name :- b.GetText();
    r := Some(Some(Named(id, name)));
  }

  method GetMessageDto(b: ByteBuffer) returns (r: Option<MessageDto>)
    requires b.Valid()
    modifies b`position
    ensures b.Valid() && b.Got(old(b.Contents()), DecMessageDto(old(b.Remaining())), r)
  {
    hide DecInt, DecLong, DecText, DecNullableNamed, DecNullableInt;
    var id :- b.GetLong();
    var queue :- GetNullableNamed(b);
    var content :- b.GetText();
    var prio :- b.GetInt();
    var sender :- GetNullableNamed(b);
    var context :- b.GetNullableInt();
    r := Some(MessageDto(id, queue, content, prio, sender, context));
  }

  method GetQueryInfo(b: ByteBuffer) returns (r: Option<QueryInfo>)
    requires b.Valid()
    modifies b`position
    ensures b.Valid() && b.Got(old(b.Contents()), DecQueryInfo(old(b.Remaining())), r)
  {
    hide DecBoolean, DecNullableNamed, DecNullableInt;
    var queue :- GetNullableNamed(b);
    var sender :- GetNullableNamed(b);
    var shouldOrderByPriority :- b.GetBoolean();
    var context :- b.GetNullableInt();
    r := Some(QueryInfo(queue, sender, shouldOrderByPriority, context));
  }

  method GetNullableMessage(b: ByteBuffer) returns (r: Option<Option<MessageDto>>)
    requires b.Valid()
    modifies b`position
    ensures b.Valid() && b.Got(old(b.Contents()), DecNullable(old(b.Remaining()), DecMessageDto), r)
  {
    hide DecBoolean, DecMessageDto;
    var present :- b.GetBoolean();
    if !present {
      return Some(None);
    }
    var message :- GetMessageDto(b);
    r := Some(Some(message));
  }

  method GetNullableQueryInfo(b: ByteBuffer) returns (r: Option<Option<QueryInfo>>)
    requires b.Valid()
    modifies b`position
    ensures b.Valid() && b.Got(old(b.Contents()), DecNullable(old(b.Remaining()), DecQueryInfo), r)
  {
    hide DecBoolean, DecQueryInfo;
    var present :- b.GetBoolean();
    if !present {
      return Some(None);
    }
    var info :- GetQueryInfo(b);
    r := Some(Some(info));
  }

  // ---- lists: a loop that appends --------------------------------------------------------------

  /** A decoded list with elements in front of it that have been read already. */
  ghost function After<T>(xs: seq<T>, d: Decoded<seq<T>>): Decoded<seq<T>> {
    if d.Done? then Done(xs + d.value, d.rest) else d
  }

  lemma AfterOne<T>(xs: seq<T>, n: int, s: seq<Byte>, dec: seq<Byte> -> Decoded<T>)
    requires n > 0
    ensures dec(s).Done? ==> After(xs, DecAll(n, s, dec)) == After(xs + [dec(s).value], DecAll(n - 1, dec(s).rest, dec))
    ensures dec(s).Failed? ==> After(xs, DecAll(n, s, dec)).Failed?
  {
    if dec(s).Done? {
      var more := DecAll(n - 1, dec(s).rest, dec);
      if more.Done? {
        assert xs + ([dec(s).value] + more.value) == xs + [dec(s).value] + more.value;
      }
    }
  }

  lemma AfterNone<T>(d: Decoded<seq<T>>)
    ensures After([], d) == d
  {
    if d.Done? {
      assert [] + d.value == d.value;
    }
  }

  lemma NoneLeft<T>(xs: seq<T>, n: int, s: seq<Byte>, dec: seq<Byte> -> Decoded<T>)
    requires n <= 0
    ensures After(xs, DecAll(n, s, dec)) == Done(xs, s)
  {
    assert xs + [] == xs;
  }

  method GetIds(b: ByteBuffer, size: Int32) returns (r: Option<Ids>)
    requires b.Valid()
    modifies b`position
    ensures b.Valid() && b.Got(old(b.Contents()), DecAll(size, old(b.Remaining()), DecNullableLong), r)
  {
    hide DecAll, DecNullableLong, After;
    var queueIds: Ids := [];
    ghost var goal := DecAll(size, b.Remaining(), DecNullableLong);
    AfterNone(goal);
    var i := 0;
    while i < size
      invariant 0 <= i == |queueIds| && (i > 0 ==> i <= size)
      invariant b.Valid() && b.Contents() == old(b.Contents()) && b.limit == old(b.limit)
      invariant After(queueIds, DecAll(size - i, b.Remaining(), DecNullableLong)) == goal
    {
      AfterOne(queueIds, size - i, b.Remaining(), DecNullableLong);
      var id :- b.GetNullableLong();
      queueIds := queueIds + [id];
      i := i + 1;
    }
    NoneLeft(queueIds, size - i, b.Remaining(), DecNullableLong);
    r := Some(queueIds);
  }

  method GetQueues(b: ByteBuffer, listSize: Int32) returns (r: Option<Queues>)
    requires b.Valid()
    modifies b`position
    ensures b.Valid() && b.Got(old(b.Contents()), DecAll(listSize, old(b.Remaining()), DecNullableNamed), r)
  {
    hide DecAll, DecNullableNamed, After;
    var queues: Queues := [];
    ghost var goal := DecAll(listSize, b.Remaining(), DecNullableNamed);
    AfterNone(goal);
    var i := 0;
    while i < listSize
      invariant 0 <= i == |queues| && (i > 0 ==> i <= listSize)
      invariant b.Valid() && b.Contents() == old(b.Contents()) && b.limit == old(b.limit)
      invariant After(queues, DecAll(listSize - i, b.Remaining(), DecNullableNamed)) == goal
    {
      AfterOne(queues, listSize - i, b.Remaining(), DecNullableNamed);
      var queue :- GetNullableNamed(b);
      queues := queues + [queue];
      i := i + 1;
    }
    NoneLeft(queues, listSize - i, b.Remaining(), DecNullableNamed);
    r := Some(queues);
  }

  // ---- dispatch on the type id -------------------------------------------------------------------

  method GetSendClientMessage(b: ByteBuffer) returns (r: Option<Request>)
    requires b.Valid()
    modifies b`position
    ensures b.Valid() && b.Got(old(b.Contents()), DecSendClientMessage(old(b.Remaining())), r)
  {
    hide DecInt, DecLong, DecText, DecBoolean, DecNullableLong;
    var clientId :- b.GetLong();
    var prio :- b.GetInt();
    var conversation :- b.GetBoolean();
    var context :- b.GetNullableLong();
    var content :- b.GetText();
    r := Some(SendClientMessage(clientId, prio, conversation, context, content));
  }

  method GetSendMessage(b: ByteBuffer) returns (r: Option<Request>)
    requires b.Valid()
    modifies b`position
    ensures b.Valid() && b.Got(old(b.Contents()), DecSendMessage(old(b.Remaining())), r)
  {
    hide DecInt, DecText, DecAll, DecNullableLong;
    var size :- b.GetInt();
    var queueIds :- GetIds(b, size);
    var content :- b.GetText();
    var prio :- b.GetInt();
    r := Some(SendMessage(queueIds, content, prio));
  }

  method GetLookupQueue(b: ByteBuffer) returns (r: Option<Request>)
    requires b.Valid()
    modifies b`position
    ensures b.Valid() && b.Got(old(b.Contents()), DecLookupQueue(old(b.Remaining())), r)
  {
    hide DecText, DecNullableLong;
    var name :- b.GetText();
    var client :- b.GetNullableLong();
    r := Some(LookupQueue(name, client));
  }

  method GetRequestBody(b: ByteBuffer, id: Int32) returns (r: Option<Request>)
    requires b.Valid()
    modifies b`position
    ensures b.Valid() && b.Got(old(b.Contents()), DecRequestBody(id, old(b.Remaining())), r)
  {
    hide DecInt, DecText, DecNullableNamed, DecNullable, DecSendClientMessage, DecSendMessage, DecLookupQueue;
    if id == CREATE_QUEUE {
      var name :- b.GetText();
      r := Some(CreateQueue(name));
    } else if id == DELETE_QUEUE {
      var queue :- GetNullableNamed(b);
      r := Some(DeleteQueue(queue));
    } else if id == DEQUEUE_MESSAGE {
      var info :- GetNullableQueryInfo(b);
      r := Some(DequeueMessage(info));
    } else if id == PEEK_MESSAGE {
      var info :- GetNullableQueryInfo(b);
      r := Some(PeekMessage(info));
    } else if id == QUEUES_WITH_PENDING {
      var maxNumQueues :- b.GetInt();
      r := Some(QueuesWithPending(maxNumQueues));
    } else if id == REGISTRATION {
      var name :- b.GetText();
      r := Some(Registration(name));
    } else if id == SEND_CLIENT_MESSAGE {
      r := GetSendClientMessage(b);
    } else if id == SEND_MESSAGE {
      r := GetSendMessage(b);
    } else if id == LOOKUP_QUEUE {
      r := GetLookupQueue(b);
    } else if id == LOOKUP_CLIENT {
      var name :- b.GetText();
      r := Some(LookupClient(name));
    } else {
      r := None;
    }
  }

  method DeserializeRequest(b: ByteBuffer) returns (r: Option<Request>)
    requires b.Valid()
    modifies b`position
    ensures b.Valid() && b.Got(old(b.Contents()), DecRequest(old(b.Remaining())), r)
  {
    hide DecInt, DecRequestBody;
    var id :- b.GetInt();
    r := GetRequestBody(b, id);
  }

  method GetResponseBody(b: ByteBuffer, id: Int32) returns (r: Option<Response>)
    requires b.Valid()
    modifies b`position
    ensures b.Valid() && b.Got(old(b.Contents()), DecResponseBody(id, old(b.Remaining())), r)
  {
    hide DecInt, DecText, DecBoolean, DecNullableNamed, DecNullable, DecNullableLong, DecAll;
    if id == CLIENT_FOUND {
      var client :- GetNullableNamed(b);
      r := Some(ClientFound(client));
    } else if id == QUEUE_FOUND {
      var queue :- GetNullableNamed(b);
      r := Some(QueueFound(queue));
    } else if id == QUEUE_DELETED {
      r := Some(QueueDeleted);
    } else if id == EXCEPTION_THROWN {
      var exception :- b.GetText();
      r := Some(ExceptionThrown(exception));
    } else if id == MESSAGE_FOUND {
      var message :- GetNullableMessage(b);
      r := Some(MessageFound(message));
    } else if id == PENDING_QUEUES {
      var numMessagesInMyQueue :- b.GetInt();
      var listSize :- b.GetInt();
      var queues :- GetQueues(b, listSize);
      r := Some(PendingQueues(numMessagesInMyQueue, queues));
    } else if id == REGISTERED {
      var client :- GetNullableNamed(b);
      var isNewClient :- b.GetBoolean();
      r := Some(Registered(client, isNewClient));
    } else if id == CLIENT_MESSAGE_SENT {
      var context :- b.GetNullableLong();
      r := Some(ClientMessageSent(context));
    } else if id == MESSAGE_SENT {
      r := Some(MessageSent);
    } else {
      r := None;
    }
  }

  method DeserializeResponse(b: ByteBuffer) returns (r: Option<Response>)
    requires b.Valid()
    modifies b`position
    ensures b.Valid() && b.Got(old(b.Contents()), DecResponse(old(b.Remaining())), r)
  {
    hide DecInt, DecResponseBody;
    var id :- b.GetInt();
    r := GetResponseBody(b, id);
  }
}
