/**
 The wire format in literal bytes, for all values of one byte each: which byte comes first, what marks null and
 truth, and in which order the fields of every composite message follow each other.
 */
module WireBytes {
  import opened Codec
  import MessageBuffers
  import opened Messages
  import opened Wrappers

  lemma SmallInt(k: Byte)
    ensures EncInt(k) == [0, 0, 0, k]
  {
  }

  lemma SmallLong(k: Byte)
    ensures EncLong(k) == [0, 0, 0, 0, 0, 0, 0, k]
  {
    SmallInt(0);
    SmallInt(k);
  }

  /** True is 0 and also says that something follows; false is 255, null too; a null text has length -1. */
  lemma Markers(x: Byte)
    ensures EncBoolean(true) == [0] && EncBoolean(false) == [255]
    ensures EncNullableLong(None) == [255] && EncNullableInt(None) == [255] && EncNullableNamed(None) == [255]
    ensures EncNullableLong(Some(x)) == [0, 0, 0, 0, 0, 0, 0, 0, x] && EncNullableInt(Some(x)) == [0, 0, 0, 0, x]
    ensures EncText(None) == [255, 255, 255, 255] && EncText(Some([])) == [0, 0, 0, 0]
    ensures EncText(Some([x])) == [0, 0, 0, 1, x]
  {
    hide EncInt, EncLong;
    SmallInt(0);
    SmallInt(1);
    SmallInt(x);
    SmallLong(x);
    BytesOfWord(-1, 255, 255, 255, 255);
  }

  lemma NamedBytes(id: Byte, x: Byte)
    ensures EncNullableNamed(Some(Named(id, Some([x])))) == [0, 0, 0, 0, 0, 0, 0, 0, id, 0, 0, 0, 1, x]
    ensures EncNullableNamed(Some(Named(id, None))) == [0, 0, 0, 0, 0, 0, 0, 0, id, 255, 255, 255, 255]
  {
    hide EncText, EncLong;
    SmallLong(id);
    Markers(x);
  }

  /** Id, queue, content, priority, sender, context. */
  lemma MessageDtoBytes(id: Byte, q: Byte, x: Byte, prio: Byte, s: Byte, y: Byte, c: Byte)
    ensures EncMessageDto(MessageDto(id, Some(Named(q, None)), Some([x]), prio, Some(Named(s, Some([y]))), Some(c)))
         == [0, 0, 0, 0, 0, 0, 0, id]
            + ([0, 0, 0, 0, 0, 0, 0, 0, q, 255, 255, 255, 255]
            + ([0, 0, 0, 1, x]
            + ([0, 0, 0, prio]
            + ([0, 0, 0, 0, 0, 0, 0, 0, s, 0, 0, 0, 1, y]
            + [0, 0, 0, 0, c]))))
  {
    hide EncText, EncLong, EncInt, EncNullableNamed, EncNullableInt;
    SmallLong(id);
    SmallInt(prio);
    Markers(x);
    Markers(c);
    NamedBytes(q, x);
    NamedBytes(s, y);
  }

  /** Queue, sender, order, context. */
  lemma QueryInfoBytes(q: Byte, s: Byte, x: Byte, c: Byte)
    ensures EncQueryInfo(QueryInfo(Some(Named(q, None)), Some(Named(s, Some([x]))), true, Some(c)))
         == [0, 0, 0, 0, 0, 0, 0, 0, q, 255, 255, 255, 255]
            + ([0, 0, 0, 0, 0, 0, 0, 0, s, 0, 0, 0, 1, x]
            + ([0]
            + [0, 0, 0, 0, c]))
  {
    hide EncNullableNamed, EncNullableInt;
    Markers(c);
    NamedBytes(q, x);
    NamedBytes(s, x);
  }

  /** Number of queues, each nullable, content, priority. */
  lemma SendMessageBytes(id: Byte, x: Byte, prio: Byte)
    ensures var ids: Ids := [Some(id), None];
      EncRequestBody(SendMessage(ids, Some([x]), prio))
         == [0, 0, 0, 2]
            + ([0, 0, 0, 0, 0, 0, 0, 0, id, 255]
            + ([0, 0, 0, 1, x]
            + [0, 0, 0, prio]))
  {
    hide EncText, EncInt, EncNullableLong, EncAll;
    SmallInt(2);
    SmallInt(prio);
    Markers(x);
    Markers(id);
    TwoIds(id);
  }

  lemma TwoIds(id: Byte)
    ensures var ids: Ids := [Some(id), None]; EncAll(ids, EncNullableLong) == [0, 0, 0, 0, 0, 0, 0, 0, id, 255]
  {
    hide EncNullableLong;
    Markers(id);
    var ids: Ids := [Some(id), None];
    assert ids[1..] == [None] && ids[1..][1..] == [];
    assert EncAll(ids, EncNullableLong) == EncNullableLong(Some(id)) + EncAll(ids[1..], EncNullableLong);
    assert EncAll(ids[1..], EncNullableLong) == EncNullableLong(None) + EncAll(ids[1..][1..], EncNullableLong);
  }

  /** Client, priority, conversation flag, context, content. */
  lemma SendClientMessageBytes(id: Byte, prio: Byte, c: Byte, x: Byte)
    ensures EncRequestBody(SendClientMessage(id, prio, true, Some(c), Some([x])))
         == [0, 0, 0, 0, 0, 0, 0, id]
            + ([0, 0, 0, prio]
            + ([0]
            + ([0, 0, 0, 0, 0, 0, 0, 0, c]
            + [0, 0, 0, 1, x])))
  {
    hide EncText, EncInt, EncLong, EncNullableLong;
    SmallLong(id);
    SmallInt(prio);
    Markers(c);
    Markers(x);
  }

  /** Name, then client. */
  lemma LookupQueueBytes(x: Byte, id: Byte)
    ensures EncRequestBody(LookupQueue(Some([x]), Some(id))) == [0, 0, 0, 1, x] + [0, 0, 0, 0, 0, 0, 0, 0, id]
  {
    hide EncText, EncNullableLong;
    Markers(x);
    Markers(id);
  }

  /** Client, then whether it is new. */
  lemma RegisteredBytes(id: Byte, x: Byte)
    ensures EncResponseBody(Registered(Some(Named(id, Some([x]))), false))
         == [0, 0, 0, 0, 0, 0, 0, 0, id, 0, 0, 0, 1, x] + [255]
  {
    hide EncNullableNamed;
    NamedBytes(id, x);
  }

  /** Messages in the own queue, then number of queues and the queues. */
  lemma PendingQueuesBytes(n: Byte, id: Byte, x: Byte)
    ensures EncResponseBody(PendingQueues(n, [Some(Named(id, Some([x])))]))
         == [0, 0, 0, n] + ([0, 0, 0, 1] + [0, 0, 0, 0, 0, 0, 0, 0, id, 0, 0, 0, 1, x])
  {
    hide EncInt, EncNullableNamed;
    SmallInt(n);
    SmallInt(1);
    NamedBytes(id, x);
    var queues: seq<Option<Named>> := [Some(Named(id, Some([x])))];
    assert queues[1..] == [];
    assert EncAll(queues, EncNullableNamed) == EncNullableNamed(queues[0]) + EncAll(queues[1..], EncNullableNamed);
  }

  /** A frame is the length of its payload, highest byte first, and the payload. */
  lemma FrameBytes(payload: seq<Byte>)
    requires |payload| <= INT_MAX
    ensures var f := MessageBuffers.Frame(payload);
      |f| == 4 + |payload| && f[4..] == payload
      && WordOf(f[..4]) == |payload|
  {
    WordOfInt(|payload|);
  }

  // ---- what reading makes of bytes that nothing was encoded to -------------------------------------

  /** Only the byte 0 is true. */
  lemma ReadBoolean(b: Byte, rest: seq<Byte>)
    ensures DecBoolean([b] + rest) == Done(b == 0, rest)
  {
    assert ([b] + rest)[1..] == rest;
  }

  /** Any negative length is null; a length beyond the last byte is an exception. */
  lemma ReadText(n: Int32, rest: seq<Byte>)
    ensures n < 0 ==> DecText(EncInt(n) + rest) == Done(None, rest)
    ensures n > |rest| ==> DecText(EncInt(n) + rest) == Failed(Underflow)
    ensures 0 <= n <= |rest| ==> DecText(EncInt(n) + rest) == Done(Some(rest[..n]), rest[n..])
  {
    hide DecInt, EncInt;
    IntRoundTrip(n, rest);
  }

  /** Too few bytes are an exception; any others are a number. */
  lemma ReadNumber(s: seq<Byte>)
    ensures DecInt(s) == Failed(Underflow) <==> |s| < 4
    ensures DecLong(s) == Failed(Underflow) <==> |s| < 8
    ensures |s| >= 4 ==> exists n :: DecInt(s) == Done(n, s[4..])
    ensures |s| >= 8 ==> exists n :: DecLong(s) == Done(n, s[8..])
  {
    hide IntOf, Unsigned;
    if |s| >= 8 {
      assert s[4..][4..] == s[8..];
    }
  }
}
