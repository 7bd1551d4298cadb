/** The broker's side of framing: detecting a complete message, and answering into the buffer it came in. */
module Framing {
  import Buffers
  import opened Codec
  import opened MessageBuffers
  import MessageReading
  import opened Messages
  import opened Wrappers

  const LENGTH_FIELD_LENGTH := 4

  function LengthField(s: seq<Byte>): Int32
    requires |s| >= LENGTH_FIELD_LENGTH
  {
    IntOf(s[0], s[1], s[2], s[3])
  }

  lemma LengthOfFrame(payload: seq<Byte>, s: seq<Byte>)
    requires |payload| <= INT_MAX && |s| >= 4 && s[..4] == EncInt(|payload|)
    ensures LengthField(s) == |payload|
  {
    IntBytes(|payload|);
    assert s[0] == s[..4][0] && s[1] == s[..4][1] && s[2] == s[..4][2] && s[3] == s[..4][3];
  }

  /** Whether what has been received so far is a complete message. Having looked, the position is behind the length. */
  method HasReceivedMessage(b: Buffers.ByteBuffer) returns (complete: bool)
    requires b.Valid()
    modifies b`position
    ensures b.Valid()
    ensures old(b.position) < LENGTH_FIELD_LENGTH ==> !complete && b.position == old(b.position)
    ensures old(b.position) >= LENGTH_FIELD_LENGTH ==>
              b.position == LENGTH_FIELD_LENGTH
              && (complete <==> LengthField(b.Contents()) <= old(b.position) - LENGTH_FIELD_LENGTH)
  {
    if b.position >= LENGTH_FIELD_LENGTH {
      var endPosition := b.position;
      b.position := 0;
      var messageLength := b.GetInt();
      assert b.position == 4;
      return messageLength.value <= endPosition - LENGTH_FIELD_LENGTH;
    }
    return false;
  }

  /**
   A completely received request is found to be complete and is decoded, although the limit is still the capacity
   and old bytes follow. Answered into the same buffer, what is sent are the bytes of the response's frame alone,
   if it fits.
   */
  method AnswerInPlace(b: Buffers.ByteBuffer, ghost request: Request, respond: Request -> Response)
    returns (complete: bool, decoded: Option<Request>, ok: bool)
    requires b.Valid() && b.limit == b.data.Length
    requires |EncRequest(request)| <= INT_MAX && b.Contents()[..b.position] == Frame(EncRequest(request))
    modifies b, b.data
    ensures b.Valid()
    ensures complete && decoded == Some(request)
    ensures ok <==> 4 + |EncResponse(respond(request))| <= b.data.Length
    ensures ok ==> |EncResponse(respond(request))| <= INT_MAX
                   && b.Remaining() == Frame(EncResponse(respond(request)))
  {
    hide EncInt, EncRequest, EncResponse, DecRequest, IntOf;
    ghost var p := EncRequest(request);
    ghost var s := b.Contents();
    assert s[..4] == s[..b.position][..4] == EncInt(|p|);
    LengthOfFrame(p, s);
    complete := HasReceivedMessage(b);
    assert b.Remaining() == p + s[4 + |p|..] by {
      assert s[4..] == s[..4 + |p|][4..] + s[4 + |p|..];
    }
    RequestRoundTrip(request, s[4 + |p|..]);
    decoded := MessageReading.DeserializeRequest(b);
    b.Clear();
    var response := respond(decoded.value);
    ok := SerializeResponseWithHeader(response, b);
    b.Flip();
  }

  // ---- a request that arrives in pieces ----------------------------------------------------------

  /** The receive buffer of a connection: content and position; the limit is the capacity. */
  datatype Receiver = Receiver(content: seq<Byte>, position: nat)

  function AfterRead(r: Receiver, chunk: seq<Byte>): (q: (Receiver, bool))
    requires r.position + |chunk| <= |r.content|
  {
    var content := Buffers.Overwritten(r.content, r.position, chunk);
    var end := r.position + |chunk|;
    if end < LENGTH_FIELD_LENGTH then (Receiver(content, end), false)
    else (Receiver(content, LENGTH_FIELD_LENGTH), LengthField(content) <= end - LENGTH_FIELD_LENGTH)
  }

  /** One read event of the reactor. */
  method ReadChunk(b: Buffers.ByteBuffer, chunk: seq<Byte>) returns (complete: bool)
    requires b.Valid() && b.limit == b.data.Length && b.position + |chunk| <= b.limit
    modifies b`position, b.data
    ensures b.Valid()
    ensures (Receiver(b.Contents(), b.position), complete)
         == AfterRead(Receiver(old(b.Contents()), old(b.position)), chunk)
  {
    hide LengthField;
    var _ := b.Put(chunk);
    complete := HasReceivedMessage(b);
  }

  function Total(chunks: seq<seq<Byte>>): nat {
    if chunks == [] then 0 else |chunks[0]| + Total(chunks[1..])
  }

  function Joined(chunks: seq<seq<Byte>>): (r: seq<Byte>)
    ensures |r| == Total(chunks)
  {
    if chunks == [] then [] else chunks[0] + Joined(chunks[1..])
  }

  /** What the receiver holds when a message is found to be complete while reading the chunks, if one is. */
  function Received(r: Receiver, chunks: seq<seq<Byte>>): Option<Receiver>
    decreases |chunks|
  {
    if chunks == [] || r.position + |chunks[0]| > |r.content| then None
    else
      var (next, complete) := AfterRead(r, chunks[0]);
      if complete then Some(next) else Received(next, chunks[1..])
  }

  /** Every read but the last ends within the length field; t bytes have been read before. */
  ghost predicate EndsInLengthField(t: nat, chunks: seq<seq<Byte>>) {
    forall k :: 0 <= k < |chunks| ==> t + Total(chunks[..k]) <= LENGTH_FIELD_LENGTH
  }

  lemma TotalOfPrefix(chunks: seq<seq<Byte>>, k: nat)
    requires 0 < k <= |chunks|
    ensures Total(chunks[..k]) == |chunks[0]| + Total(chunks[1..][..k - 1])
  {
    assert chunks[..k][1..] == chunks[1..][..k - 1];
  }

  lemma EndsStep(t: nat, chunks: seq<seq<Byte>>)
    requires |chunks| > 1 && t <= LENGTH_FIELD_LENGTH
    ensures EndsInLengthField(t, chunks) <==> EndsInLengthField(t + |chunks[0]|, chunks[1..])
  {
    var d := t + |chunks[0]|;
    if EndsInLengthField(t, chunks) {
      forall k | 0 <= k < |chunks[1..]| ensures d + Total(chunks[1..][..k]) <= LENGTH_FIELD_LENGTH {
        TotalOfPrefix(chunks, k + 1);
      }
    }
    if EndsInLengthField(d, chunks[1..]) {
      forall k | 0 <= k < |chunks| ensures t + Total(chunks[..k]) <= LENGTH_FIELD_LENGTH {
        if k > 0 {
          TotalOfPrefix(chunks, k);
          assert d + Total(chunks[1..][..k - 1]) <= LENGTH_FIELD_LENGTH;
        }
      }
    }
  }

  /** Once a read has ended inside the payload, the rest overwrites what came first and never suffices. */
  lemma {:induction false} StuckAfterPartialPayload(r: Receiver, chunks: seq<seq<Byte>>, payload: seq<Byte>)
    requires |payload| <= INT_MAX && |r.content| >= LENGTH_FIELD_LENGTH && r.position == LENGTH_FIELD_LENGTH
    requires r.content[..4] == EncInt(|payload|) && Total(chunks) < |payload|
    ensures Received(r, chunks).None?
    decreases |chunks|
  {
    hide EncInt;
    if chunks != [] && r.position + |chunks[0]| <= |r.content| {
      var (next, complete) := AfterRead(r, chunks[0]);
      assert next.content[..4] == r.content[..4];
      LengthOfFrame(payload, next.content);
      StuckAfterPartialPayload(next, chunks[1..], payload);
    }
  }

  ghost predicate NonEmpty(chunks: seq<seq<Byte>>) {
    forall i :: 0 <= i < |chunks| ==> chunks[i] != []
  }

  /** A read that continues a frame within its length field. */
  lemma ReadContinues(r: Receiver, c: seq<Byte>, payload: seq<Byte>)
    requires 1 <= |payload| <= INT_MAX && |Frame(payload)| <= |r.content|
    requires r.position <= LENGTH_FIELD_LENGTH && r.content[..r.position] == Frame(payload)[..r.position]
    requires r.position + |c| <= |Frame(payload)| && Frame(payload)[r.position..r.position + |c|] == c
    ensures var (next, complete) := AfterRead(r, c);
      var d := r.position + |c|;
      && |next.content| == |r.content| && next.content[..d] == Frame(payload)[..d]
      && next.position == (if d < 4 then d else 4)
      && (d >= 4 ==> next.content[..4] == EncInt(|payload|))
      && (complete <==> d == |Frame(payload)|)
  {
    hide EncInt, LengthField;
    var f := Frame(payload);
    var d := r.position + |c|;
    var (next, complete) := AfterRead(r, c);
    assert next.content[..d] == r.content[..r.position] + c;
    assert f[..d] == f[..r.position] + c;
    if d >= 4 {
      assert next.content[..4] == next.content[..d][..4] == f[..d][..4] == f[..4];
      LengthOfFrame(payload, next.content);
    }
  }

  lemma {:induction false} FragmentsFrom(r: Receiver, chunks: seq<seq<Byte>>, payload: seq<Byte>)
    requires 1 <= |payload| <= INT_MAX && |Frame(payload)| <= |r.content|
    requires r.position <= LENGTH_FIELD_LENGTH && r.content[..r.position] == Frame(payload)[..r.position]
    requires Joined(chunks) == Frame(payload)[r.position..] && NonEmpty(chunks)
    ensures Received(r, chunks).Some? <==> EndsInLengthField(r.position, chunks)
    ensures Received(r, chunks).Some? ==>
              Received(r, chunks).value.position == LENGTH_FIELD_LENGTH
              && Frame(payload) <= Received(r, chunks).value.content
    decreases |chunks|
  {
    hide EncInt, LengthField, AfterRead, EndsInLengthField;
    var f := Frame(payload);
    assert chunks != [];
    var c := chunks[0];
    var rest := chunks[1..];
    var d := r.position + |c|;
    assert f[r.position..][..|c|] == f[r.position..d];
    assert f[r.position..][|c|..] == f[d..];
    ReadContinues(r, c, payload);
    var (next, complete) := AfterRead(r, c);
    if rest == [] {
      OneReadEnds(r.position, chunks);
    } else {
      assert rest[0] == chunks[1];
      EndsStep(r.position, chunks);
      if d <= 4 {
        FragmentsFrom(next, rest, payload);
      } else {
        StuckAfterPartialPayload(next, rest, payload);
        TooLong(d, rest);
      }
    }
  }

  lemma OneReadEnds(t: nat, chunks: seq<seq<Byte>>)
    requires |chunks| == 1 && t <= LENGTH_FIELD_LENGTH
    ensures EndsInLengthField(t, chunks)
  {
    assert chunks[..0] == [];
  }

  lemma TooLong(d: nat, chunks: seq<seq<Byte>>)
    requires chunks != [] && d > LENGTH_FIELD_LENGTH
    ensures !EndsInLengthField(d, chunks)
  {
    assert d + Total(chunks[..0]) > LENGTH_FIELD_LENGTH;
  }

  /**
   A request that arrives in several reads is received if and only if every read but the last ends within its
   length field; then the buffer holds its frame.
   */
  lemma FragmentsReceivedIff(content: seq<Byte>, chunks: seq<seq<Byte>>, payload: seq<Byte>)
    requires 1 <= |payload| <= INT_MAX && |Frame(payload)| <= |content|
    requires Joined(chunks) == Frame(payload) && NonEmpty(chunks)
    ensures var r := Received(Receiver(content, 0), chunks);
      && (r.Some? <==> forall k :: 0 <= k < |chunks| ==> Total(chunks[..k]) <= LENGTH_FIELD_LENGTH)
      && (r.Some? ==> r.value.position == LENGTH_FIELD_LENGTH
                      && Frame(payload) <= r.value.content)
  {
    hide EncInt;
    assert Frame(payload)[0..] == Frame(payload);
    FragmentsFrom(Receiver(content, 0), chunks, payload);
    assert EndsInLengthField(0, chunks) <==>
           forall k :: 0 <= k < |chunks| ==> Total(chunks[..k]) <= LENGTH_FIELD_LENGTH;
  }

  /** A message of two payload bytes, cut between them, is not received. */
  lemma CutPayloadIsNotReceived(content: seq<Byte>)
    requires |content| >= 6
    ensures Received(Receiver(content, 0), [EncInt(2) + [7], [8]]).None?
  {
    var chunks: seq<seq<Byte>> := [EncInt(2) + [7], [8]];
    assert chunks[1..] == [[8]] && [[8]][1..] == [];
    assert Joined(chunks) == Frame([7, 8]);
    FragmentsReceivedIff(content, chunks, [7, 8]);
    TotalOfPrefix(chunks, 1);
    assert Total(chunks[..1]) == 5;
  }
}
