/** The client's side of framing: one request at a time, and a response put together from whatever reads deliver. */
module ClientConnection {
  import Buffers
  import opened Codec
  import Framing
  import MessageBuffers
  import MessageReading
  import opened Messages
  import opened Wrappers

  const CLIENT_IO_BUFFER_CAPACITY := 4000

  datatype Error = BufferOverflow | RemotelyClosed | BadResponse

  function Sum(sizes: seq<nat>): nat {
    if sizes == [] then 0 else sizes[0] + Sum(sizes[1..])
  }

  lemma {:induction false} SumPrefix(sizes: seq<nat>, i: nat)
    requires i < |sizes|
    ensures Sum(sizes[..i + 1]) == Sum(sizes[..i]) + sizes[i]
    ensures Sum(sizes[..i + 1]) <= Sum(sizes)
  {
    assert sizes[..i + 1][1..] == sizes[1..][..i];
    if i > 0 {
      SumPrefix(sizes[1..], i - 1);
      assert sizes[..i][1..] == sizes[1..][..i - 1];
    } else {
      assert sizes[..0] == [];
    }
  }

  lemma SumNone(sizes: seq<nat>)
    ensures Sum(sizes[..0]) == 0
  {
  }

  /** The stream is a frame of the response that fits the buffer, cut into non-empty reads. */
  ghost predicate Delivers(stream: seq<Byte>, sizes: seq<nat>, response: Response) {
    && |EncResponse(response)| <= INT_MAX && stream == MessageBuffers.Frame(EncResponse(response))
    && |stream| <= CLIENT_IO_BUFFER_CAPACITY
    && Sum(sizes) == |stream| && forall i :: 0 <= i < |sizes| ==> sizes[i] > 0
  }

  class Connection {
    const ioBuffer: Buffers.ByteBuffer

    constructor ()
      ensures fresh(ioBuffer) && fresh(ioBuffer.data) && Valid() && Ready()
    {
      ioBuffer := new Buffers.ByteBuffer(CLIENT_IO_BUFFER_CAPACITY);
    }

    ghost predicate Valid()
      reads ioBuffer
    {
      ioBuffer.Valid() && ioBuffer.data.Length == CLIENT_IO_BUFFER_CAPACITY
    }

    /** The buffer is empty, as a request needs to find it. */
    ghost predicate Ready()
      reads ioBuffer
    {
      ioBuffer.position == 0 && ioBuffer.limit == CLIENT_IO_BUFFER_CAPACITY
    }

    method WriteToSocket(request: Request) returns (sent: Option<seq<Byte>>)
      requires Valid()
      modifies ioBuffer, ioBuffer.data
      ensures Valid()
      ensures old(Ready()) ==>
                (sent.Some? <==> 4 + |EncRequest(request)| <= CLIENT_IO_BUFFER_CAPACITY)
                && (sent.Some? ==> sent.value == MessageBuffers.Frame(EncRequest(request)))
      ensures sent.Some? ==> Ready()
    {
      hide EncInt, EncRequest;
      var ok := MessageBuffers.SerializeRequestWithHeader(request, ioBuffer);
      if !ok {
        return None;
      }
      ioBuffer.Flip();
      sent := Some(ioBuffer.data[ioBuffer.position..ioBuffer.limit]);
      ioBuffer.Clear();
    }

    /** Reads at most the given number of bytes from the stream; never more than there is room for. */
    method ReadSome(stream: seq<Byte>, size: nat) returns (numBytes: nat)
      requires Valid()
      modifies ioBuffer`position, ioBuffer.data
      ensures Valid() && numBytes <= |stream| && numBytes <= size
      ensures numBytes == size || numBytes == |stream| || ioBuffer.position == ioBuffer.limit
      ensures ioBuffer.position == old(ioBuffer.position) + numBytes
      ensures ioBuffer.Contents()[..ioBuffer.position]
           == old(ioBuffer.Contents()[..ioBuffer.position]) + stream[..numBytes]
    {
      var room := ioBuffer.limit - ioBuffer.position;
      numBytes := if size <= |stream| then size else |stream|;
      if numBytes > room {
        numBytes := room;
      }
      var _ := ioBuffer.Put(stream[..numBytes]);
    }

    /**
     Sends the request and reads until a complete response has arrived. The stream holds what the broker sends;
     the i-th read asks for sizes[i] bytes, and after the last one the connection is closed.
     */
    method SubmitRequest(request: Request, stream: seq<Byte>, sizes: seq<nat>, ghost response: Response)
      returns (r: Result<Response, Error>, sent: Option<seq<Byte>>)
      requires Valid()
      modifies ioBuffer, ioBuffer.data
      ensures Valid()
      ensures old(Ready()) ==> sent == if 4 + |EncRequest(request)| <= CLIENT_IO_BUFFER_CAPACITY
                                       then Some(MessageBuffers.Frame(EncRequest(request))) else None
      ensures old(Ready()) && sent.Some? && Delivers(stream, sizes, response) ==> r == Ok(response) && Ready()
    {
      hide EncInt, EncRequest, EncResponse, DecResponse, Framing.LengthField;
      sent := WriteToSocket(request);
      if sent.None? {
        return Err(BufferOverflow), sent;
      }
      r := ReadResponse(stream, sizes, response);
    }

    method ReadResponse(stream: seq<Byte>, sizes: seq<nat>, ghost response: Response)
      returns (r: Result<Response, Error>)
      requires Valid() && Ready()
      modifies ioBuffer, ioBuffer.data
      ensures Valid()
      ensures Delivers(stream, sizes, response) ==> r == Ok(response) && Ready()
    {
      hide EncInt, EncResponse, DecResponse, IntOf, Framing.LengthField, Sum;
      var responseLength := -1;
      var read, i := 0, 0;
      ghost var delivers := Delivers(stream, sizes, response);
      ghost var n := |EncResponse(response)|;
      SumNone(sizes);
      while i < |sizes|
        invariant 0 <= i <= |sizes| && Valid() && ioBuffer.limit == CLIENT_IO_BUFFER_CAPACITY
        invariant read == ioBuffer.position <= |stream| && ioBuffer.Contents()[..read] == stream[..read]
        invariant delivers ==> read == Sum(sizes[..i]) && read < 4 + n
        invariant delivers ==> responseLength == if read >= 4 then n else -1
      {
        SumPrefix(sizes, i);
        var numBytes := ReadSome(stream[read..], sizes[i]);
        assert stream[..read + numBytes] == stream[..read] + stream[read..][..numBytes];
        read := read + numBytes;
        i := i + 1;
        if ioBuffer.position >= Framing.LENGTH_FIELD_LENGTH && responseLength == -1 {
          responseLength := Framing.LengthField(ioBuffer.data[..]);
        }
        if delivers && read >= Framing.LENGTH_FIELD_LENGTH {
          HeaderSeen(stream, response, ioBuffer.Contents(), read);
        }
        if ioBuffer.position >= Framing.LENGTH_FIELD_LENGTH + responseLength && responseLength != -1 {
          r := TakeResponse(stream, response);
          if numBytes <= 0 {
            r := Err(RemotelyClosed);
          }
          return;
        }
      }
      assert sizes[..|sizes|] == sizes;
      return Err(RemotelyClosed);
    }

    /** Decodes the response behind the header and moves what follows it to the front. */
    method TakeResponse(ghost stream: seq<Byte>, ghost response: Response) returns (r: Result<Response, Error>)
      requires Valid() && ioBuffer.limit == CLIENT_IO_BUFFER_CAPACITY
      modifies ioBuffer, ioBuffer.data
      ensures Valid()
      ensures |EncResponse(response)| <= INT_MAX && stream == MessageBuffers.Frame(EncResponse(response))
              && ioBuffer.data.Length >= |stream| == old(ioBuffer.position)
              && old(ioBuffer.Contents())[..|stream|] == stream
              ==> r == Ok(response) && Ready()
    {
      hide EncInt, EncResponse, DecResponse, DecInt;
      ioBuffer.Flip();
      ghost var all := ioBuffer.Remaining();
      if |EncResponse(response)| <= INT_MAX && all == MessageBuffers.Frame(EncResponse(response)) {
        HeaderThenResponse(response, all);
      }
      var header := ioBuffer.GetInt();
      if header.None? {
        return Err(BadResponse);
      }
      var decoded := MessageReading.DeserializeResponse(ioBuffer);
      if decoded.None? {
        return Err(BadResponse);
      }
      ioBuffer.Compact();
      r := Ok(decoded.value);
    }
  }

  lemma HeaderSeen(stream: seq<Byte>, response: Response, content: seq<Byte>, read: nat)
    requires |EncResponse(response)| <= INT_MAX && stream == MessageBuffers.Frame(EncResponse(response))
    requires 4 <= read <= |stream| && read <= |content| && content[..read] == stream[..read]
    ensures Framing.LengthField(content) == |EncResponse(response)|
  {
    hide EncInt, EncResponse, Framing.LengthField;
    assert content[..4] == content[..read][..4] == stream[..read][..4] == stream[..4];
    Framing.LengthOfFrame(EncResponse(response), content);
  }

  lemma HeaderThenResponse(response: Response, all: seq<Byte>)
    requires |EncResponse(response)| <= INT_MAX && all == MessageBuffers.Frame(EncResponse(response))
    ensures DecInt(all) == Done(|EncResponse(response)|, EncResponse(response))
    ensures DecResponse(EncResponse(response)) == Done(response, [])
  {
    hide EncInt, DecInt, EncResponse, DecResponse;
    IntRoundTrip(|EncResponse(response)|, EncResponse(response));
    ResponseRoundTrip(response, []);
    assert EncResponse(response) + [] == EncResponse(response);
  }

  /** A client's whole conversation: each request finds the buffer empty, and gets its own response. */
  method Converse(connection: Connection, requests: seq<Request>, streams: seq<seq<Byte>>, sizes: seq<seq<nat>>,
                  ghost responses: seq<Response>)
    returns (received: seq<Response>)
    requires connection.Valid() && connection.Ready()
    requires |requests| == |streams| == |sizes| == |responses|
    requires forall i :: 0 <= i < |requests| ==> 4 + |EncRequest(requests[i])| <= CLIENT_IO_BUFFER_CAPACITY
    requires forall i :: 0 <= i < |requests| ==> Delivers(streams[i], sizes[i], responses[i])
    modifies connection.ioBuffer, connection.ioBuffer.data
    ensures received == responses
    ensures connection.Valid() && connection.Ready()
  {
    hide EncRequest, Delivers;
    received := [];
    for i := 0 to |requests|
      invariant connection.Valid() && connection.Ready() && received == responses[..i]
    {
      var r, _ := connection.SubmitRequest(requests[i], streams[i], sizes[i], responses[i]);
      received := received + [r.value];
    }
  }
}
