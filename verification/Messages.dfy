/** Requests and responses: a type id, then the fields of the type. */
module Messages {
  import opened Codec
  import opened Wrappers

  datatype Request =
    | CreateQueue(name: Text)
    | DeleteQueue(queue: Option<Named>)
    | DequeueMessage(info: Option<QueryInfo>)
    | PeekMessage(info: Option<QueryInfo>)
    | QueuesWithPending(maxNumQueues: Int32)
    | Registration(name: Text)
    | SendClientMessage(clientId: Int64, prio: Int32, conversation: bool, context: Option<Int64>, content: Text)
    | SendMessage(queueIds: Ids, content: Text, prio: Int32)
    | LookupQueue(name: Text, client: Option<Int64>)
    | LookupClient(name: Text)

  datatype Response =
    | ClientFound(client: Option<Named>)
    | QueueFound(queue: Option<Named>)
    | QueueDeleted
    | ExceptionThrown(exception: Text)
    | MessageFound(message: Option<MessageDto>)
    | PendingQueues(numMessagesInMyQueue: Int32, queues: Queues)
    | Registered(client: Option<Named>, isNewClient: bool)
    | ClientMessageSent(context: Option<Int64>)
    | MessageSent

  // ---- type ids ----------------------------------------------------------------------------------

  const CREATE_QUEUE: Int32 := LowWord(5493920307572674123)
  const DELETE_QUEUE: Int32 := LowWord(-689440274911871604)
  const DEQUEUE_MESSAGE: Int32 := LowWord(-4034153593869631817)
  const PEEK_MESSAGE: Int32 := LowWord(5535263002144596601)
  const QUEUES_WITH_PENDING: Int32 := LowWord(-4299769935652705291)
  const REGISTRATION: Int32 := LowWord(7742122658910533817)
  const SEND_CLIENT_MESSAGE: Int32 := LowWord(5365826671308061202)
  const SEND_MESSAGE: Int32 := LowWord(-8471979592749732204)
  const LOOKUP_QUEUE: Int32 := LowWord(-7648694499744635352)
  const LOOKUP_CLIENT: Int32 := LowWord(-7648694499744635353)

  const CLIENT_FOUND: Int32 := LowWord(1333054714047954400)
  const QUEUE_FOUND: Int32 := LowWord(1533054714047954400)
  const QUEUE_DELETED: Int32 := LowWord(-9129773578776412298)
  const EXCEPTION_THROWN: Int32 := LowWord(5159033818555051347)
  const MESSAGE_FOUND: Int32 := LowWord(1267869959385529197)
  const PENDING_QUEUES: Int32 := LowWord(4798365845603757482)
  const REGISTERED: Int32 := LowWord(-3027176762048543256)
  const CLIENT_MESSAGE_SENT: Int32 := LowWord(6873497715742459652)
  const MESSAGE_SENT: Int32 := LowWord(1441841603203307110)

  function RequestId(r: Request): Int32 {
    match r
    case CreateQueue(_) => CREATE_QUEUE
    case DeleteQueue(_) => DELETE_QUEUE
    case DequeueMessage(_) => DEQUEUE_MESSAGE
    case PeekMessage(_) => PEEK_MESSAGE
    case QueuesWithPending(_) => QUEUES_WITH_PENDING
    case Registration(_) => REGISTRATION
    case SendClientMessage(_, _, _, _, _) => SEND_CLIENT_MESSAGE
    case SendMessage(_, _, _) => SEND_MESSAGE
    case LookupQueue(_, _) => LOOKUP_QUEUE
    case LookupClient(_) => LOOKUP_CLIENT
  }

  function ResponseId(r: Response): Int32 {
    match r
    case ClientFound(_) => CLIENT_FOUND
    case QueueFound(_) => QUEUE_FOUND
    case QueueDeleted => QUEUE_DELETED
    case ExceptionThrown(_) => EXCEPTION_THROWN
    case MessageFound(_) => MESSAGE_FOUND
    case PendingQueues(_, _) => PENDING_QUEUES
    case Registered(_, _) => REGISTERED
    case ClientMessageSent(_) => CLIENT_MESSAGE_SENT
    case MessageSent => MESSAGE_SENT
  }

  /** The registered types: registering two with the same id is an error. */
  const REQUEST_IDS: seq<Int32> :=
    [CREATE_QUEUE, DELETE_QUEUE, DEQUEUE_MESSAGE, PEEK_MESSAGE, QUEUES_WITH_PENDING, REGISTRATION,
     SEND_CLIENT_MESSAGE, SEND_MESSAGE, LOOKUP_QUEUE, LOOKUP_CLIENT]

  const RESPONSE_IDS: seq<Int32> :=
    [CLIENT_FOUND, QUEUE_FOUND, QUEUE_DELETED, EXCEPTION_THROWN, MESSAGE_FOUND, PENDING_QUEUES, REGISTERED,
     CLIENT_MESSAGE_SENT, MESSAGE_SENT]

  /** Registration succeeds: casting the ids to int makes no two of them equal. */
  lemma IdsDistinct()
    ensures forall i, j :: 0 <= i < j < |REQUEST_IDS| ==> REQUEST_IDS[i] != REQUEST_IDS[j]
    ensures forall i, j :: 0 <= i < j < |RESPONSE_IDS| ==> RESPONSE_IDS[i] != RESPONSE_IDS[j]
  {
  }

  // ---- requests ----------------------------------------------------------------------------------

  function EncRequestBody(r: Request): seq<Byte> {
    match r
    case CreateQueue(name) => EncText(name)
    case DeleteQueue(queue) => EncNullableNamed(queue)
    case DequeueMessage(info) => EncNullable(info, EncQueryInfo)
    case PeekMessage(info) => EncNullable(info, EncQueryInfo)
    case QueuesWithPending(maxNumQueues) => EncInt(maxNumQueues)
    case Registration(name) => EncText(name)
    case SendClientMessage(clientId, prio, conversation, context, content) =>
      EncLong(clientId) + (EncInt(prio) + (EncBoolean(conversation) + (EncNullableLong(context) + EncText(content))))
    case SendMessage(queueIds, content, prio) =>
      EncInt(|queueIds|) + (EncAll(queueIds, EncNullableLong) + (EncText(content) + EncInt(prio)))
    case LookupQueue(name, client) => EncText(name) + EncNullableLong(client)
    case LookupClient(name) => EncText(name)
  }

  function EncRequest(r: Request): seq<Byte> {
    EncInt(RequestId(r)) + EncRequestBody(r)
  }

  /** The bytes at which an encoded request starts. */
  lemma RequestHead(r: Request)
    ensures |EncRequest(r)| >= 4
    ensures EncRequest(r)[..4] ==
            match r {
              case CreateQueue(_) => [101, 44, 142, 75]
              case DeleteQueue(_) => [8, 7, 189, 140]
              case DequeueMessage(_) => [36, 8, 254, 183]
              case PeekMessage(_) => [149, 48, 226, 121]
              case QueuesWithPending(_) => [81, 132, 43, 245]
              case Registration(_) => [235, 221, 120, 185]
              case SendClientMessage(_, _, _, _, _) => [157, 162, 58, 18]
              case SendMessage(_, _, _) => [101, 203, 46, 148]
              case LookupQueue(_, _) => [131, 60, 166, 40]
              case LookupClient(_) => [131, 60, 166, 39]
            }
  {
    hide EncRequestBody, EncInt;
    assert EncRequest(r)[..4] == EncInt(RequestId(r));
    match r
    case CreateQueue(_) => BytesOfWord(CREATE_QUEUE, 101, 44, 142, 75);
    case DeleteQueue(_) => BytesOfWord(DELETE_QUEUE, 8, 7, 189, 140);
    case DequeueMessage(_) => BytesOfWord(DEQUEUE_MESSAGE, 36, 8, 254, 183);
    case PeekMessage(_) => BytesOfWord(PEEK_MESSAGE, 149, 48, 226, 121);
    case QueuesWithPending(_) => BytesOfWord(QUEUES_WITH_PENDING, 81, 132, 43, 245);
    case Registration(_) => BytesOfWord(REGISTRATION, 235, 221, 120, 185);
    case SendClientMessage(_, _, _, _, _) => BytesOfWord(SEND_CLIENT_MESSAGE, 157, 162, 58, 18);
    case SendMessage(_, _, _) => BytesOfWord(SEND_MESSAGE, 101, 203, 46, 148);
    case LookupQueue(_, _) => BytesOfWord(LOOKUP_QUEUE, 131, 60, 166, 40);
    case LookupClient(_) => BytesOfWord(LOOKUP_CLIENT, 131, 60, 166, 39);
  }

  function DecSendClientMessage(s: seq<Byte>): Decoded<Request> {
    var (clientId, s1) :- DecLong(s);
    var (prio, s2) :- DecInt(s1);
    var (conversation, s3) :- DecBoolean(s2);
    var (context, s4) :- DecNullableLong(s3);
    var (content, s5) :- DecText(s4);
    Done(SendClientMessage(clientId, prio, conversation, context, content), s5)
  }

  function DecSendMessage(s: seq<Byte>): Decoded<Request> {
    var (size, s1) :- DecInt(s);
    var (queueIds, s2) :- DecAll(size, s1, DecNullableLong);
    var (content, s3) :- DecText(s2);
    var (prio, s4) :- DecInt(s3);
    Done(SendMessage(queueIds, content, prio), s4)
  }

  function DecLookupQueue(s: seq<Byte>): Decoded<Request> {
    var (name, s1) :- DecText(s);
    var (client, s2) :- DecNullableLong(s1);
    Done(LookupQueue(name, client), s2)
  }

  /** Makes a request or response of a single field. */
  function Made<T, U>(d: Decoded<T>, make: T -> U): Decoded<U> {
    var (value, rest) :- d;
    Done(make(value), rest)
  }

  /** A type id that nothing is registered for ends in an exception. */
  function DecRequestBody(id: Int32, s: seq<Byte>): Decoded<Request> {
    if id == CREATE_QUEUE then Made(DecText(s), (name: Text) => CreateQueue(name))
    else if id == DELETE_QUEUE then Made(DecNullableNamed(s), queue => DeleteQueue(queue))
    else if id == DEQUEUE_MESSAGE then Made(DecNullable(s, DecQueryInfo), info => DequeueMessage(info))
    else if id == PEEK_MESSAGE then Made(DecNullable(s, DecQueryInfo), info => PeekMessage(info))
    else if id == QUEUES_WITH_PENDING then Made(DecInt(s), (n: Int32) => QueuesWithPending(n))
    else if id == REGISTRATION then Made(DecText(s), (name: Text) => Registration(name))
    else if id == SEND_CLIENT_MESSAGE then DecSendClientMessage(s)
    else if id == SEND_MESSAGE then DecSendMessage(s)
    else if id == LOOKUP_QUEUE then DecLookupQueue(s)
    else if id == LOOKUP_CLIENT then Made(DecText(s), (name: Text) => LookupClient(name))
    else Failed(UnknownType)
  }

  function DecRequest(s: seq<Byte>): Decoded<Request> {
    var (id, s1) :- DecInt(s);
    DecRequestBody(id, s1)
  }

  lemma SendClientMessageRoundTrip(r: Request, rest: seq<Byte>)
    requires r.SendClientMessage?
    ensures DecSendClientMessage(EncRequestBody(r) + rest) == Done(r, rest)
  {
    hide EncLong, DecLong, EncInt, DecInt, EncBoolean, DecBoolean, EncNullableLong, DecNullableLong, EncText, DecText;
    var t4 := EncText(r.content) + rest;
    var t3 := EncNullableLong(r.context) + t4;
    var t2 := EncBoolean(r.conversation) + t3;
    var t1 := EncInt(r.prio) + t2;
    assert EncRequestBody(r) + rest == EncLong(r.clientId) + t1;
    LongRoundTrip(r.clientId, t1);
    IntRoundTrip(r.prio, t2);
    BooleanRoundTrip(r.conversation, t3);
    NullableLongRoundTrip(r.context, t4);
    TextRoundTrip(r.content, rest);
  }

  lemma SendMessageRoundTrip(r: Request, rest: seq<Byte>)
    requires r.SendMessage?
    ensures DecSendMessage(EncRequestBody(r) + rest) == Done(r, rest)
  {
    hide EncInt, DecInt, EncNullableLong, DecNullableLong, EncText, DecText, EncAll, DecAll;
    var t3 := EncInt(r.prio) + rest;
    var t2 := EncText(r.content) + t3;
    var t1 := EncAll(r.queueIds, EncNullableLong) + t2;
    assert EncRequestBody(r) + rest == EncInt(|r.queueIds|) + t1;
    IntRoundTrip(|r.queueIds|, t1);
    forall x, q | x in r.queueIds ensures DecNullableLong(EncNullableLong(x) + q) == Done(x, q) {
      NullableLongRoundTrip(x, q);
    }
    AllRoundTrip(r.queueIds, EncNullableLong, DecNullableLong, t2);
    TextRoundTrip(r.content, t3);
    IntRoundTrip(r.prio, rest);
  }

  lemma LookupQueueRoundTrip(r: Request, rest: seq<Byte>)
    requires r.LookupQueue?
    ensures DecLookupQueue(EncRequestBody(r) + rest) == Done(r, rest)
  {
    hide EncNullableLong, DecNullableLong, EncText, DecText;
    var t1 := EncNullableLong(r.client) + rest;
    assert EncRequestBody(r) + rest == EncText(r.name) + t1;
    TextRoundTrip(r.name, t1);
    NullableLongRoundTrip(r.client, rest);
  }

  lemma NullableQueryInfoRoundTrip(o: Option<QueryInfo>, rest: seq<Byte>)
    ensures DecNullable(EncNullable(o, EncQueryInfo) + rest, DecQueryInfo) == Done(o, rest)
  {
    hide EncQueryInfo, DecQueryInfo;
    if o.Some? {
      QueryInfoRoundTrip(o.value, rest);
    }
    NullableRoundTrip(o, EncQueryInfo, DecQueryInfo, rest);
  }

  lemma RequestBodyRoundTrip(r: Request, rest: seq<Byte>)
    ensures DecRequestBody(RequestId(r), EncRequestBody(r) + rest) == Done(r, rest)
  {
    hide EncInt, DecInt, EncText, DecText, EncNullableNamed, DecNullableNamed, EncNullable, DecNullable,
         DecSendClientMessage, DecSendMessage, DecLookupQueue;
    match r
    case CreateQueue(name) => TextRoundTrip(name, rest);
    case DeleteQueue(queue) => NullableNamedRoundTrip(queue, rest);
    case DequeueMessage(info) => NullableQueryInfoRoundTrip(info, rest);
    case PeekMessage(info) => NullableQueryInfoRoundTrip(info, rest);
    case QueuesWithPending(maxNumQueues) => IntRoundTrip(maxNumQueues, rest);
    case Registration(name) => TextRoundTrip(name, rest);
    case SendClientMessage(_, _, _, _, _) => SendClientMessageRoundTrip(r, rest);
    case SendMessage(_, _, _) => SendMessageRoundTrip(r, rest);
    case LookupQueue(_, _) => LookupQueueRoundTrip(r, rest);
    case LookupClient(name) => TextRoundTrip(name, rest);
  }

  /** Decoding an encoded request gives the request, and stops exactly at the first byte after it. */
  lemma RequestRoundTrip(r: Request, rest: seq<Byte>)
    ensures DecRequest(EncRequest(r) + rest) == Done(r, rest)
  {
    hide EncInt, DecInt, EncRequestBody, DecRequestBody, RequestId;
    assert EncRequest(r) + rest == EncInt(RequestId(r)) + (EncRequestBody(r) + rest);
    IntRoundTrip(RequestId(r), EncRequestBody(r) + rest);
    RequestBodyRoundTrip(r, rest);
  }

  /** No encoding of a request begins another one: streams of requests can be read in one way only. */
  lemma RequestsUnambiguous(a: Request, b: Request, x: seq<Byte>, y: seq<Byte>)
    requires EncRequest(a) + x == EncRequest(b) + y
    ensures a == b && x == y
  {
    hide EncRequest, DecRequest;
    RequestRoundTrip(a, x);
    RequestRoundTrip(b, y);
  }

  // ---- responses ---------------------------------------------------------------------------------

  function EncResponseBody(r: Response): seq<Byte> {
    match r
    case ClientFound(client) => EncNullableNamed(client)
    case QueueFound(queue) => EncNullableNamed(queue)
    case QueueDeleted => []
    case ExceptionThrown(exception) => EncText(exception)
    case MessageFound(message) => EncNullable(message, EncMessageDto)
    case PendingQueues(numMessagesInMyQueue, queues) =>
      EncInt(numMessagesInMyQueue) + (EncInt(|queues|) + EncAll(queues, EncNullableNamed))
    case Registered(client, isNewClient) => EncNullableNamed(client) + EncBoolean(isNewClient)
    case ClientMessageSent(context) => EncNullableLong(context)
    case MessageSent => []
  }

  function EncResponse(r: Response): seq<Byte> {
    EncInt(ResponseId(r)) + EncResponseBody(r)
  }

  /** The bytes at which an encoded response starts. */
  lemma ResponseHead(r: Response)
    ensures |EncResponse(r)| >= 4
    ensures EncResponse(r)[..4] ==
            match r {
              case ClientFound(_) => [24, 252, 253, 224]
              case QueueFound(_) => [212, 16, 253, 224]
              case QueueDeleted => [61, 72, 255, 118]
              case ExceptionThrown(_) => [155, 51, 109, 83]
              case MessageFound(_) => [182, 144, 59, 109]
              case PendingQueues(_, _) => [81, 148, 45, 170]
              case Registered(_, _) => [9, 199, 133, 232]
              case ClientMessageSent(_) => [79, 73, 199, 4]
              case MessageSent => [133, 80, 22, 102]
            }
  {
    hide EncResponseBody, EncInt;
    assert EncResponse(r)[..4] == EncInt(ResponseId(r));
    match r
    case ClientFound(_) => BytesOfWord(CLIENT_FOUND, 24, 252, 253, 224);
    case QueueFound(_) => BytesOfWord(QUEUE_FOUND, 212, 16, 253, 224);
    case QueueDeleted => BytesOfWord(QUEUE_DELETED, 61, 72, 255, 118);
    case ExceptionThrown(_) => BytesOfWord(EXCEPTION_THROWN, 155, 51, 109, 83);
    case MessageFound(_) => BytesOfWord(MESSAGE_FOUND, 182, 144, 59, 109);
    case PendingQueues(_, _) => BytesOfWord(PENDING_QUEUES, 81, 148, 45, 170);
    case Registered(_, _) => BytesOfWord(REGISTERED, 9, 199, 133, 232);
    case ClientMessageSent(_) => BytesOfWord(CLIENT_MESSAGE_SENT, 79, 73, 199, 4);
    case MessageSent => BytesOfWord(MESSAGE_SENT, 133, 80, 22, 102);
  }

  function DecPendingQueues(s: seq<Byte>): Decoded<Response> {
    var (numMessagesInMyQueue, s1) :- DecInt(s);
    var (listSize, s2) :- DecInt(s1);
    var (queues, s3) :- DecAll(listSize, s2, DecNullableNamed);
    Done(PendingQueues(numMessagesInMyQueue, queues), s3)
  }

  function DecRegistered(s: seq<Byte>): Decoded<Response> {
    var (client, s1) :- DecNullableNamed(s);
    var (isNewClient, s2) :- DecBoolean(s1);
    Done(Registered(client, isNewClient), s2)
  }

  function DecResponseBody(id: Int32, s: seq<Byte>): Decoded<Response> {
    if id == CLIENT_FOUND then Made(DecNullableNamed(s), client => ClientFound(client))
    else if id == QUEUE_FOUND then Made(DecNullableNamed(s), queue => QueueFound(queue))
    else if id == QUEUE_DELETED then Done(QueueDeleted, s)
    else if id == EXCEPTION_THROWN then Made(DecText(s), (exception: Text) => ExceptionThrown(exception))
    else if id == MESSAGE_FOUND then Made(DecNullable(s, DecMessageDto), message => MessageFound(message))
    else if id == PENDING_QUEUES then DecPendingQueues(s)
    else if id == REGISTERED then DecRegistered(s)
    else if id == CLIENT_MESSAGE_SENT then Made(DecNullableLong(s), context => ClientMessageSent(context))
    else if id == MESSAGE_SENT then Done(MessageSent, s)
    else Failed(UnknownType)
  }

  function DecResponse(s: seq<Byte>): Decoded<Response> {
    var (id, s1) :- DecInt(s);
    DecResponseBody(id, s1)
  }

  lemma NullableMessageRoundTrip(o: Option<MessageDto>, rest: seq<Byte>)
    ensures DecNullable(EncNullable(o, EncMessageDto) + rest, DecMessageDto) == Done(o, rest)
  {
    hide EncMessageDto, DecMessageDto;
    if o.Some? {
      MessageDtoRoundTrip(o.value, rest);
    }
    NullableRoundTrip(o, EncMessageDto, DecMessageDto, rest);
  }

  lemma PendingQueuesRoundTrip(r: Response, rest: seq<Byte>)
    requires r.PendingQueues?
    ensures DecPendingQueues(EncResponseBody(r) + rest) == Done(r, rest)
  {
    hide EncInt, DecInt, EncNullableNamed, DecNullableNamed, EncAll, DecAll;
    var t2 := EncAll(r.queues, EncNullableNamed) + rest;
    var t1 := EncInt(|r.queues|) + t2;
    assert EncResponseBody(r) + rest == EncInt(r.numMessagesInMyQueue) + t1;
    IntRoundTrip(r.numMessagesInMyQueue, t1);
    IntRoundTrip(|r.queues|, t2);
    forall x, q | x in r.queues ensures DecNullableNamed(EncNullableNamed(x) + q) == Done(x, q) {
      NullableNamedRoundTrip(x, q);
    }
    AllRoundTrip(r.queues, EncNullableNamed, DecNullableNamed, rest);
  }

  lemma RegisteredRoundTrip(r: Response, rest: seq<Byte>)
    requires r.Registered?
    ensures DecRegistered(EncResponseBody(r) + rest) == Done(r, rest)
  {
    hide EncNullableNamed, DecNullableNamed, EncBoolean, DecBoolean;
    var t1 := EncBoolean(r.isNewClient) + rest;
    assert EncResponseBody(r) + rest == EncNullableNamed(r.client) + t1;
    NullableNamedRoundTrip(r.client, t1);
    BooleanRoundTrip(r.isNewClient, rest);
  }

  lemma ResponseBodyRoundTrip(r: Response, rest: seq<Byte>)
    ensures DecResponseBody(ResponseId(r), EncResponseBody(r) + rest) == Done(r, rest)
  {
    hide EncInt, DecInt, EncText, DecText, EncNullableNamed, DecNullableNamed, EncNullable, DecNullable,
         EncNullableLong, DecNullableLong, DecPendingQueues, DecRegistered;
    match r
    case ClientFound(client) => NullableNamedRoundTrip(client, rest);
    case QueueFound(queue) => NullableNamedRoundTrip(queue, rest);
    case QueueDeleted => assert [] + rest == rest;
    case ExceptionThrown(exception) => TextRoundTrip(exception, rest);
    case MessageFound(message) => NullableMessageRoundTrip(message, rest);
    case PendingQueues(_, _) => PendingQueuesRoundTrip(r, rest);
    case Registered(_, _) => RegisteredRoundTrip(r, rest);
    case ClientMessageSent(context) => NullableLongRoundTrip(context, rest);
    case MessageSent => assert [] + rest == rest;
  }

  lemma ResponseRoundTrip(r: Response, rest: seq<Byte>)
    ensures DecResponse(EncResponse(r) + rest) == Done(r, rest)
  {
    hide EncInt, DecInt, EncResponseBody, DecResponseBody, ResponseId;
    assert EncResponse(r) + rest == EncInt(ResponseId(r)) + (EncResponseBody(r) + rest);
    IntRoundTrip(ResponseId(r), EncResponseBody(r) + rest);
    ResponseBodyRoundTrip(r, rest);
  }

  lemma ResponsesUnambiguous(a: Response, b: Response, x: seq<Byte>, y: seq<Byte>)
    requires EncResponse(a) + x == EncResponse(b) + y
    ensures a == b && x == y
  {
    hide EncResponse, DecResponse;
    ResponseRoundTrip(a, x);
    ResponseRoundTrip(b, y);
  }

  /** Decoding fails on an unregistered type id, whatever follows. */
  lemma UnknownTypeFails(id: Int32, s: seq<Byte>)
    ensures id !in REQUEST_IDS ==> DecRequest(EncInt(id) + s) == Failed(UnknownType)
    ensures id !in RESPONSE_IDS ==> DecResponse(EncInt(id) + s) == Failed(UnknownType)
  {
    hide EncInt, DecInt;
    IntRoundTrip(id, s);
  }
}
