/**
 The wire format: big-endian integers, nullable strings, byte arrays, numbers and objects, lists, and the requests
 and responses made of them. Strings are the bytes they are sent as, and so is an exception.
 */
module Codec {
  import opened Wrappers

  type Byte = b: int | 0 <= b < 256

  const INT_RANGE := 0x1_0000_0000
  const INT_MAX := 0x7FFF_FFFF

  type Int32 = n: int | -0x8000_0000 <= n <= 0x7FFF_FFFF
  type Int64 = n: int | -0x8000_0000_0000_0000 <= n <= 0x7FFF_FFFF_FFFF_FFFF

  /** A nullable string or byte array; its length fits an int. */
  type Text = t: Option<seq<Byte>> | t.Some? ==> |t.value| <= INT_MAX witness None

  type Ids = xs: seq<Option<Int64>> | |xs| <= INT_MAX

  /** A queue or a client. */
  datatype Named = Named(id: Int64, name: Text)

  type Queues = xs: seq<Option<Named>> | |xs| <= INT_MAX

  datatype MessageDto = MessageDto(
    id: Int64, queue: Option<Named>, content: Text, prio: Int32, sender: Option<Named>, context: Option<Int32>)

  datatype QueryInfo = QueryInfo(
    queue: Option<Named>, sender: Option<Named>, shouldOrderByPriority: bool, context: Option<Int32>)

  datatype Error = Underflow | UnknownType

  /** A value and the bytes after it, or an exception. */
  datatype Decoded<+T> = Done(value: T, rest: seq<Byte>) | Failed(error: Error) {
    predicate IsFailure() {
      Failed?
    }

    function PropagateFailure<U>(): Decoded<U>
      requires Failed?
    {
      Failed(error)
    }

    function Extract(): (T, seq<Byte>)
      requires Done?
    {
      (value, rest)
    }
  }

  // ---- integers ----------------------------------------------------------------------------------

  function Unsigned(n: Int32): nat {
    if n < 0 then n + INT_RANGE else n
  }

  /** The low 32 bits as a signed number: the cast to int. */
  function LowWord(n: int): Int32 {
    var u := n % INT_RANGE;
    if u > INT_MAX then u - INT_RANGE else u
  }

  function EncInt(n: Int32): (r: seq<Byte>)
    ensures |r| == 4
  {
    var u := Unsigned(n);
    [u / 256 / 256 / 256, u / 256 / 256 % 256, u / 256 % 256, u % 256]
  }

  function IntOf(a: Byte, b: Byte, c: Byte, d: Byte): Int32 {
    LowWord(a * 0x100_0000 + b * 0x1_0000 + c * 0x100 + d)
  }

  function DecInt(s: seq<Byte>): Decoded<Int32> {
    if |s| < 4 then Failed(Underflow) else Done(IntOf(s[0], s[1], s[2], s[3]), s[4..])
  }

  function EncLong(n: Int64): (r: seq<Byte>)
    ensures |r| == 8
  {
    EncInt(LowWord(n / INT_RANGE)) + EncInt(LowWord(n))
  }

  function DecLong(s: seq<Byte>): Decoded<Int64> {
    var (high, s1) :- DecInt(s);
    var (low, s2) :- DecInt(s1);
    Done(high * INT_RANGE + Unsigned(low), s2)
  }

  lemma BytesOf(u: nat)
    ensures u == u / 256 / 256 / 256 * 0x100_0000 + u / 256 / 256 % 256 * 0x1_0000 + u / 256 % 256 * 0x100 + u % 256
  {
    var u1 := u / 256;
    var u2 := u1 / 256;
    assert u == u1 * 256 + u % 256 && u1 == u2 * 256 + u1 % 256 && u2 == u2 / 256 * 256 + u2 % 256;
  }

  lemma UnsignedRoundTrip(n: Int32)
    ensures LowWord(Unsigned(n)) == n
  {
  }

  lemma IntBytes(n: Int32)
    ensures var e := EncInt(n); IntOf(e[0], e[1], e[2], e[3]) == n
  {
    hide LowWord;
    BytesOf(Unsigned(n));
    UnsignedRoundTrip(n);
  }

  lemma IntRoundTrip(n: Int32, rest: seq<Byte>)
    ensures DecInt(EncInt(n) + rest) == Done(n, rest)
  {
    IntBytes(n);
    assert (EncInt(n) + rest)[4..] == rest;
  }

  lemma LongWords(n: Int64)
    ensures LowWord(n / INT_RANGE) * INT_RANGE + Unsigned(LowWord(n)) == n
  {
    assert n == n / INT_RANGE * INT_RANGE + n % INT_RANGE;
    assert -0x8000_0000 <= n / INT_RANGE <= 0x7FFF_FFFF;
  }

  lemma LongRoundTrip(n: Int64, rest: seq<Byte>)
    ensures DecLong(EncLong(n) + rest) == Done(n, rest)
  {
    hide LowWord, Unsigned, EncInt, DecInt;
    var high, low := LowWord(n / INT_RANGE), LowWord(n);
    assert EncLong(n) + rest == EncInt(high) + (EncInt(low) + rest);
    IntRoundTrip(high, EncInt(low) + rest);
    IntRoundTrip(low, rest);
    LongWords(n);
  }

  ghost predicate DifferAt(a: seq<Byte>, b: seq<Byte>, k: nat) {
    k < |a| && k < |b| && a[k] < b[k] && forall i :: 0 <= i < k ==> a[i] == b[i]
  }

  /** The first byte in which they differ decides. */
  ghost predicate Before(a: seq<Byte>, b: seq<Byte>) {
    exists k :: DifferAt(a, b, k)
  }

  function WordOf(s: seq<Byte>): nat
    requires |s| == 4
  {
    s[0] as int * 0x100_0000 + s[1] as int * 0x1_0000 + s[2] as int * 0x100 + s[3]
  }

  lemma WordsBefore(a: seq<Byte>, b: seq<Byte>)
    requires |a| == |b| == 4
    ensures Before(a, b) <==> WordOf(a) < WordOf(b)
  {
    if WordOf(a) < WordOf(b) {
      var k := if a[0] != b[0] then 0 else if a[1] != b[1] then 1 else if a[2] != b[2] then 2 else 3;
      assert DifferAt(a, b, k);
    }
  }

  lemma WordOfInt(n: Int32)
    ensures WordOf(EncInt(n)) == n % INT_RANGE
  {
    BytesOf(Unsigned(n));
  }

  lemma BytesOfWord(n: Int32, a: Byte, b: Byte, c: Byte, d: Byte)
    requires n % INT_RANGE == a * 0x100_0000 + b * 0x1_0000 + c * 0x100 + d
    ensures EncInt(n) == [a, b, c, d]
  {
    var u := Unsigned(n);
    LowByte(u, a * 0x1_0000 + b * 0x100 + c, d);
    LowByte(u / 256, a * 0x100 + b, c);
    LowByte(u / 256 / 256, a, b);
  }

  lemma LowByte(u: nat, high: nat, low: Byte)
    requires u == high * 256 + low
    ensures u / 256 == high && u % 256 == low
  {
  }

  /** Big-endian two's complement: the bytes are ordered as the unsigned 32-bit words are. */
  lemma IntOrder(a: Int32, b: Int32)
    ensures Before(EncInt(a), EncInt(b)) <==> a % 0x1_0000_0000 < b % 0x1_0000_0000
  {
    hide Before, EncInt, WordOf;
    WordOfInt(a);
    WordOfInt(b);
    WordsBefore(EncInt(a), EncInt(b));
  }

  lemma BeforeInTwo(a: seq<Byte>, c: seq<Byte>, b: seq<Byte>, d: seq<Byte>)
    requires |a| == |b|
    ensures Before(a + c, b + d) <==> Before(a, b) || (a == b && Before(c, d))
  {
    var x, y := a + c, b + d;
    if k: nat :| DifferAt(a, b, k) {
      assert DifferAt(x, y, k);
    }
    if a == b {
      if k: nat :| DifferAt(c, d, k) {
        assert forall i :: |a| <= i < |a| + k ==> x[i] == c[i - |a|] && y[i] == d[i - |a|];
        assert DifferAt(x, y, |a| + k);
      }
    }
    if k: nat :| DifferAt(x, y, k) {
      if k < |a| {
        assert forall i :: 0 <= i < k ==> x[i] == a[i] && y[i] == b[i];
        assert DifferAt(a, b, k);
      } else {
        assert forall i :: 0 <= i < |a| ==> a[i] == x[i] && b[i] == y[i];
        assert forall i :: 0 <= i < k - |a| ==> c[i] == x[|a| + i] && d[i] == y[|a| + i];
        assert DifferAt(c, d, k - |a|);
      }
    }
  }

  lemma SameWord(a: Int32, b: Int32)
    ensures EncInt(a) == EncInt(b) <==> a % INT_RANGE == b % INT_RANGE
  {
    hide EncInt, WordOf;
    WordOfInt(a);
    WordOfInt(b);
    SameInt(a, b);
  }

  lemma SameInt(a: Int32, b: Int32)
    ensures a == b <==> a % INT_RANGE == b % INT_RANGE
  {
  }

  lemma HighAndLow(n: Int64)
    ensures LowWord(n / INT_RANGE) % INT_RANGE == n / INT_RANGE % INT_RANGE && LowWord(n) % INT_RANGE == n % INT_RANGE
    ensures n % 0x1_0000_0000_0000_0000 == n / INT_RANGE % INT_RANGE * INT_RANGE + n % INT_RANGE
  {
    var q := n / INT_RANGE;
    assert n == q * INT_RANGE + n % INT_RANGE && q == q / INT_RANGE * INT_RANGE + q % INT_RANGE;
  }

  /** The same for 64 bits. */
  lemma LongOrder(a: Int64, b: Int64)
    ensures Before(EncLong(a), EncLong(b)) <==> a % 0x1_0000_0000_0000_0000 < b % 0x1_0000_0000_0000_0000
  {
    hide Before, EncInt, LowWord;
    var ah, al, bh, bl := LowWord(a / INT_RANGE), LowWord(a), LowWord(b / INT_RANGE), LowWord(b);
    BeforeInTwo(EncInt(ah), EncInt(al), EncInt(bh), EncInt(bl));
    IntOrder(ah, bh);
    IntOrder(al, bl);
    SameWord(ah, bh);
    HighAndLow(a);
    HighAndLow(b);
  }

  // ---- nullable parts ----------------------------------------------------------------------------

  const TRUE_BYTE: Byte := 0
  const FALSE_BYTE: Byte := 255

  function EncBoolean(b: bool): seq<Byte> {
    [if b then TRUE_BYTE else FALSE_BYTE]
  }

  /** Any byte but the true byte is false. */
  function DecBoolean(s: seq<Byte>): Decoded<bool> {
    if |s| < 1 then Failed(Underflow) else Done(s[0] == TRUE_BYTE, s[1..])
  }

  function EncText(t: Text): seq<Byte> {
    if t.None? then EncInt(-1) else EncInt(|t.value|) + t.value
  }

  /** Any negative length is null. */
  function DecText(s: seq<Byte>): Decoded<Text> {
    var (length, s1) :- DecInt(s);
    if length < 0 then Done(None, s1)
    else if |s1| < length then Failed(Underflow)
    else Done(Some(s1[..length]), s1[length..])
  }

  function EncNullable<T>(o: Option<T>, enc: T -> seq<Byte>): seq<Byte> {
    if o.None? then [FALSE_BYTE] else [TRUE_BYTE] + enc(o.value)
  }

  function DecNullable<T>(s: seq<Byte>, dec: seq<Byte> -> Decoded<T>): Decoded<Option<T>> {
    var (present, s1) :- DecBoolean(s);
    if !present then Done(None, s1)
    else
      var (value, s2) :- dec(s1);
      Done(Some(value), s2)
  }

  function EncNullableLong(o: Option<Int64>): seq<Byte> {
    EncNullable(o, EncLong)
  }

  function DecNullableLong(s: seq<Byte>): Decoded<Option<Int64>> {
    DecNullable(s, DecLong)
  }

  function EncNullableInt(o: Option<Int32>): seq<Byte> {
    EncNullable(o, EncInt)
  }

  function DecNullableInt(s: seq<Byte>): Decoded<Option<Int32>> {
    DecNullable(s, DecInt)
  }

  lemma BooleanRoundTrip(b: bool, rest: seq<Byte>)
    ensures DecBoolean(EncBoolean(b) + rest) == Done(b, rest)
  {
    assert (EncBoolean(b) + rest)[1..] == rest;
  }

  /** Null and empty are told apart. */
  lemma TextRoundTrip(t: Text, rest: seq<Byte>)
    ensures DecText(EncText(t) + rest) == Done(t, rest)
  {
    hide EncInt, DecInt;
    if t.None? {
      IntRoundTrip(-1, rest);
    } else {
      assert EncText(t) + rest == EncInt(|t.value|) + (t.value + rest);
      IntRoundTrip(|t.value|, t.value + rest);
      assert (t.value + rest)[..|t.value|] == t.value && (t.value + rest)[|t.value|..] == rest;
    }
  }

  lemma NullableRoundTrip<T(!new)>(o: Option<T>, enc: T -> seq<Byte>, dec: seq<Byte> -> Decoded<T>, rest: seq<Byte>)
    requires o.Some? ==> dec(enc(o.value) + rest) == Done(o.value, rest)
    ensures DecNullable(EncNullable(o, enc) + rest, dec) == Done(o, rest)
  {
    if o.None? {
      assert ([FALSE_BYTE] + rest)[1..] == rest;
    } else {
      assert EncNullable(o, enc) + rest == [TRUE_BYTE] + (enc(o.value) + rest);
      assert ([TRUE_BYTE] + (enc(o.value) + rest))[1..] == enc(o.value) + rest;
    }
  }

  lemma NullableLongRoundTrip(o: Option<Int64>, rest: seq<Byte>)
    ensures DecNullableLong(EncNullableLong(o) + rest) == Done(o, rest)
  {
    if o.Some? {
      LongRoundTrip(o.value, rest);
    }
    NullableRoundTrip(o, EncLong, DecLong, rest);
  }

  lemma NullableIntRoundTrip(o: Option<Int32>, rest: seq<Byte>)
    ensures DecNullableInt(EncNullableInt(o) + rest) == Done(o, rest)
  {
    if o.Some? {
      IntRoundTrip(o.value, rest);
    }
    NullableRoundTrip(o, EncInt, DecInt, rest);
  }

  // ---- lists -------------------------------------------------------------------------------------

  function EncAll<T>(xs: seq<T>, enc: T -> seq<Byte>): seq<Byte> {
    if xs == [] then [] else enc(xs[0]) + EncAll(xs[1..], enc)
  }

  /** As many elements as the size says; a negative size is an empty list. */
  function DecAll<T>(n: int, s: seq<Byte>, dec: seq<Byte> -> Decoded<T>): (r: Decoded<seq<T>>)
    ensures r.Done? ==> |r.value| == if n <= 0 then 0 else n
    decreases if n < 0 then 0 else n
  {
    if n <= 0 then Done([], s)
    else
      var (x, s1) :- dec(s);
      var (xs, s2) :- DecAll(n - 1, s1, dec);
      Done([x] + xs, s2)
  }

  lemma {:induction false} AllRoundTrip<T(!new)>(
    xs: seq<T>, enc: T -> seq<Byte>, dec: seq<Byte> -> Decoded<T>, rest: seq<Byte>)
    requires forall x, r :: x in xs ==> dec(enc(x) + r) == Done(x, r)
    ensures DecAll(|xs|, EncAll(xs, enc) + rest, dec) == Done(xs, rest)
  {
    if xs == [] {
      assert EncAll(xs, enc) + rest == rest;
    } else {
      var more := EncAll(xs[1..], enc) + rest;
      assert EncAll(xs, enc) + rest == enc(xs[0]) + more;
      assert dec(enc(xs[0]) + more) == Done(xs[0], more);
      AllRoundTrip(xs[1..], enc, dec, rest);
      assert xs == [xs[0]] + xs[1..];
    }
  }

  // ---- transfer objects --------------------------------------------------------------------------

  function EncNamed(d: Named): seq<Byte> {
    EncLong(d.id) + EncText(d.name)
  }

  function DecNamed(s: seq<Byte>): Decoded<Named> {
    var (id, s1) :- DecLong(s);
    var (name, s2) :- DecText(s1);
    Done(Named(id, name), s2)
  }

  function EncNullableNamed(o: Option<Named>): seq<Byte> {
    EncNullable(o, EncNamed)
  }

  function DecNullableNamed(s: seq<Byte>): Decoded<Option<Named>> {
    DecNullable(s, DecNamed)
  }

  function EncMessageDto(m: MessageDto): seq<Byte> {
    EncLong(m.id) + (EncNullableNamed(m.queue) + (EncText(m.content)
    + (EncInt(m.prio) + (EncNullableNamed(m.sender) + EncNullableInt(m.context)))))
  }

  function DecMessageDto(s: seq<Byte>): Decoded<MessageDto> {
    var (id, s1) :- DecLong(s);
    var (queue, s2) :- DecNullableNamed(s1);
    var (content, s3) :- DecText(s2);
    var (prio, s4) :- DecInt(s3);
    var (sender, s5) :- DecNullableNamed(s4);
    var (context, s6) :- DecNullableInt(s5);
    Done(MessageDto(id, queue, content, prio, sender, context), s6)
  }

  function EncQueryInfo(q: QueryInfo): seq<Byte> {
    EncNullableNamed(q.queue) + (EncNullableNamed(q.sender)
    + (EncBoolean(q.shouldOrderByPriority) + EncNullableInt(q.context)))
  }

  function DecQueryInfo(s: seq<Byte>): Decoded<QueryInfo> {
    var (queue, s1) :- DecNullableNamed(s);
    var (sender, s2) :- DecNullableNamed(s1);
    var (shouldOrderByPriority, s3) :- DecBoolean(s2);
    var (context, s4) :- DecNullableInt(s3);
    Done(QueryInfo(queue, sender, shouldOrderByPriority, context), s4)
  }

  lemma NamedRoundTrip(d: Named, rest: seq<Byte>)
    ensures DecNamed(EncNamed(d) + rest) == Done(d, rest)
  {
    hide EncLong, DecLong, EncText, DecText;
    var tail := EncText(d.name) + rest;
    assert EncNamed(d) + rest == EncLong(d.id) + tail;
    LongRoundTrip(d.id, tail);
    TextRoundTrip(d.name, rest);
  }

  lemma NullableNamedRoundTrip(o: Option<Named>, rest: seq<Byte>)
    ensures DecNullableNamed(EncNullableNamed(o) + rest) == Done(o, rest)
  {
    hide EncNamed, DecNamed;
    if o.Some? {
      NamedRoundTrip(o.value, rest);
    }
    NullableRoundTrip(o, EncNamed, DecNamed, rest);
  }

  lemma MessageDtoRoundTrip(m: MessageDto, rest: seq<Byte>)
    ensures DecMessageDto(EncMessageDto(m) + rest) == Done(m, rest)
  {
    hide EncLong, DecLong, EncText, DecText, EncInt, DecInt, EncNullableNamed, DecNullableNamed, EncNullableInt,
         DecNullableInt;
    var t5 := EncNullableInt(m.context) + rest;
    var t4 := EncNullableNamed(m.sender) + t5;
    var t3 := EncInt(m.prio) + t4;
    var t2 := EncText(m.content) + t3;
    var t1 := EncNullableNamed(m.queue) + t2;
    assert EncMessageDto(m) + rest == EncLong(m.id) + t1;
    LongRoundTrip(m.id, t1);
    NullableNamedRoundTrip(m.queue, t2);
    TextRoundTrip(m.content, t3);
    IntRoundTrip(m.prio, t4);
    NullableNamedRoundTrip(m.sender, t5);
    NullableIntRoundTrip(m.context, rest);
  }

  lemma QueryInfoRoundTrip(q: QueryInfo, rest: seq<Byte>)
    ensures DecQueryInfo(EncQueryInfo(q) + rest) == Done(q, rest)
  {
    hide EncBoolean, DecBoolean, EncNullableNamed, DecNullableNamed, EncNullableInt, DecNullableInt;
    var t3 := EncNullableInt(q.context) + rest;
    var t2 := EncBoolean(q.shouldOrderByPriority) + t3;
    var t1 := EncNullableNamed(q.sender) + t2;
    assert EncQueryInfo(q) + rest == EncNullableNamed(q.queue) + t1;
    NullableNamedRoundTrip(q.queue, t1);
    NullableNamedRoundTrip(q.sender, t2);
    BooleanRoundTrip(q.shouldOrderByPriority, t3);
    NullableIntRoundTrip(q.context, rest);
  }
}
