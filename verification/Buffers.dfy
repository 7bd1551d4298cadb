/** A byte buffer with position and limit, and the put and get methods that advance it. */
module Buffers {
  import opened Codec
  import opened Wrappers

  /** s with the bytes in place of those from pos on. */
  function Overwritten(s: seq<Byte>, pos: nat, bytes: seq<Byte>): (r: seq<Byte>)
    requires pos + |bytes| <= |s|
    ensures |r| == |s|
  {
    s[..pos] + bytes + s[pos + |bytes|..]
  }

  /**
   Putting bytes from position p on, in front of the limit: all of them if they fit. Otherwise an exception, and
   what is in front of p and from the limit on is as before.
   */
  ghost predicate Wrote(before: seq<Byte>, p: nat, limit: nat, bytes: seq<Byte>, ok: bool, after: seq<Byte>, q: nat) {
    && |after| == |before| && p <= q <= limit <= |before|
    && (ok <==> p + |bytes| <= limit)
    && (ok ==> after == Overwritten(before, p, bytes) && q == p + |bytes|)
    && (!ok ==> after[..p] == before[..p] && after[limit..] == before[limit..])
  }

  lemma OverwrittenTwice(s: seq<Byte>, p: nat, a: seq<Byte>, b: seq<Byte>)
    requires p + |a| + |b| <= |s|
    ensures Overwritten(Overwritten(s, p, a), p + |a|, b) == Overwritten(s, p, a + b)
  {
    var t := Overwritten(s, p, a);
    assert t[..p + |a|] == s[..p] + a;
    assert t[p + |a| + |b|..] == s[p + |a| + |b|..];
  }

  /** Putting a, and then b if that went well, is putting a + b. */
  lemma WroteTwice(s0: seq<Byte>, p0: nat, limit: nat, a: seq<Byte>, ok1: bool, s1: seq<Byte>, p1: nat,
                   b: seq<Byte>, ok2: bool, s2: seq<Byte>, p2: nat)
    requires Wrote(s0, p0, limit, a, ok1, s1, p1)
    requires if ok1 then Wrote(s1, p1, limit, b, ok2, s2, p2) else !ok2 && s2 == s1 && p2 == p1
    ensures Wrote(s0, p0, limit, a + b, ok2, s2, p2)
  {
    if ok2 {
      OverwrittenTwice(s0, p0, a, b);
    } else if ok1 {
      assert s1[..p0] == s0[..p0];
      assert s2[..p0] == s2[..p1][..p0];
      assert s1[limit..] == s0[limit..];
    }
  }

  lemma PartsOfSlice(s: seq<Byte>, p: nat, limit: nat, n: nat)
    requires p + n <= limit <= |s|
    ensures s[p..limit][..n] == s[p..p + n] && s[p..limit][n..] == s[p + n..limit]
  {
  }

  class ByteBuffer {
    const data: array<Byte>
    var position: nat
    var limit: nat

    constructor (capacity: nat)
      requires capacity <= INT_MAX
      ensures Valid() && fresh(data)
      ensures data.Length == capacity == limit && position == 0
    {
      data := new Byte[capacity];
      position, limit := 0, capacity;
    }

    ghost predicate Valid()
      reads this
    {
      position <= limit <= data.Length <= INT_MAX
    }

    ghost function Contents(): (r: seq<Byte>)
      reads data
    {
      data[..]
    }

    /** The bytes between position and limit. */
    ghost function Remaining(): seq<Byte>
      requires Valid()
      reads this, data
    {
      data[position..limit]
    }

    method Flip()
      requires Valid()
      modifies this
      ensures Valid() && limit == old(position) && position == 0
    {
      limit, position := position, 0;
    }

    method Clear()
      requires Valid()
      modifies this
      ensures Valid() && limit == data.Length && position == 0
    {
      limit, position := data.Length, 0;
    }

    /** Moves what remains to the front, for reading more behind it. */
    method Compact()
      requires Valid()
      modifies this, data
      ensures Valid() && position == |old(Remaining())| && limit == data.Length
      ensures Contents()[..position] == old(Remaining())
    {
      var n := limit - position;
      ghost var rest := Remaining();
      for i := 0 to n
        invariant Valid() && position == old(position) && limit == old(limit)
        invariant forall k :: 0 <= k < i ==> data[k] == rest[k]
        invariant forall k :: position + i <= k < limit ==> data[k] == rest[k - position]
      {
        data[i] := data[position + i];
      }
      assert data[..n] == rest;
      position, limit := n, data.Length;
    }

    method Put(bytes: seq<Byte>) returns (ok: bool)
      requires Valid()
      modifies this`position, data
      ensures Valid() && Wrote(old(Contents()), old(position), limit, bytes, ok, Contents(), position)
    {
      ok := |bytes| <= limit - position;
      if ok {
        ghost var before := Contents();
        for i := 0 to |bytes|
          invariant position == old(position) && limit == old(limit)
          invariant data[..] == Overwritten(before, position, bytes[..i])
        {
          data[position + i] := bytes[i];
          assert bytes[..i + 1] == bytes[..i] + [bytes[i]];
        }
        assert bytes[..|bytes|] == bytes;
        position := position + |bytes|;
      }
    }

    method PutInt(n: Int32) returns (ok: bool)
      requires Valid()
      modifies this`position, data
      ensures Valid() && Wrote(old(Contents()), old(position), limit, EncInt(n), ok, Contents(), position)
    {
      ok := Put(EncInt(n));
    }

    method PutLong(n: Int64) returns (ok: bool)
      requires Valid()
      modifies this`position, data
      ensures Valid() && Wrote(old(Contents()), old(position), limit, EncLong(n), ok, Contents(), position)
    {
      ok := Put(EncLong(n));
    }

    method PutBoolean(b: bool) returns (ok: bool)
      requires Valid()
      modifies this`position, data
      ensures Valid() && Wrote(old(Contents()), old(position), limit, EncBoolean(b), ok, Contents(), position)
    {
      if b {
        ok := Put([TRUE_BYTE]);
      } else {
        ok := Put([FALSE_BYTE]);
      }
    }

    method PutText(t: Text) returns (ok: bool)
      requires Valid()
      modifies this`position, data
      ensures Valid() && Wrote(old(Contents()), old(position), limit, EncText(t), ok, Contents(), position)
    {
      hide EncInt, Wrote;
      if t.None? {
        ok := PutInt(-1);
        return;
      }
      ok := PutInt(|t.value|);
      ghost var s1, p1, ok1 := Contents(), position, ok;
      if ok {
        ok := Put(t.value);
      }
      WroteTwice(old(Contents()), old(position), limit, EncInt(|t.value|), ok1, s1, p1, t.value, ok, Contents(),
                 position);
    }

    method PutNullableLong(o: Option<Int64>) returns (ok: bool)
      requires Valid()
      modifies this`position, data
      ensures Valid() && Wrote(old(Contents()), old(position), limit, EncNullableLong(o), ok, Contents(), position)
    {
      hide EncLong, Wrote;
      if o.None? {
        ok := Put([FALSE_BYTE]);
        return;
      }
      ok := Put([TRUE_BYTE]);
      ghost var s1, p1, ok1 := Contents(), position, ok;
      if ok {
        ok := PutLong(o.value);
      }
      WroteTwice(old(Contents()), old(position), limit, [TRUE_BYTE], ok1, s1, p1, EncLong(o.value), ok, Contents(),
                 position);
    }

    method PutNullableInt(o: Option<Int32>) returns (ok: bool)
      requires Valid()
      modifies this`position, data
      ensures Valid() && Wrote(old(Contents()), old(position), limit, EncNullableInt(o), ok, Contents(), position)
    {
      hide EncInt, Wrote;
      if o.None? {
        ok := Put([FALSE_BYTE]);
        return;
      }
      ok := Put([TRUE_BYTE]);
      ghost var s1, p1, ok1 := Contents(), position, ok;
      if ok {
        ok := PutInt(o.value);
      }
      WroteTwice(old(Contents()), old(position), limit, [TRUE_BYTE], ok1, s1, p1, EncInt(o.value), ok, Contents(),
                 position);
    }

    /** What a get method promises: value and position as decoding what remains says, the data untouched. */
    ghost predicate Got<T>(before: seq<Byte>, d: Decoded<T>, r: Option<T>)
      reads this, data
      requires Valid()
    {
      && (d.Done? ==> r == Some(d.value) && Remaining() == d.rest)
      && (d.Failed? ==> r.None?)
      && Contents() == before
    }

    method GetInt() returns (r: Option<Int32>)
      requires Valid()
      modifies this`position
      ensures Valid() && Got(old(Contents()), DecInt(old(Remaining())), r)
    {
      if limit - position < 4 {
        return None;
      }
      r := Some(IntOf(data[position], data[position + 1], data[position + 2], data[position + 3]));
      assert Remaining()[4..] == data[position + 4..limit];
      position := position + 4;
    }

    method GetLong() returns (r: Option<Int64>)
      requires Valid()
      modifies this`position
      ensures Valid() && Got(old(Contents()), DecLong(old(Remaining())), r)
    {
      hide DecInt;
      var high := GetInt();
      if high.None? {
        return None;
      }
      var low := GetInt();
      if low.None? {
        return None;
      }
      r := Some(high.value * INT_RANGE + Unsigned(low.value));
    }

    method GetBoolean() returns (r: Option<bool>)
      requires Valid()
      modifies this`position
      ensures Valid() && Got(old(Contents()), DecBoolean(old(Remaining())), r)
    {
      if limit == position {
        return None;
      }
      r := Some(data[position] == TRUE_BYTE);
      assert Remaining()[1..] == data[position + 1..limit];
      position := position + 1;
    }

    method GetText() returns (r: Option<Text>)
      requires Valid()
      modifies this`position
      ensures Valid() && Got(old(Contents()), DecText(old(Remaining())), r)
    {
      hide DecInt;
      var size := GetInt();
      if size.None? {
        return None;
      }
      if size.value < 0 {
        return Some(None);
      }
      if limit - position < size.value {
        return None;
      }
      var bytes := data[position..position + size.value];
      PartsOfSlice(data[..], position, limit, size.value);
      position := position + size.value;
      r := Some(Some(bytes));
    }

    method GetNullableLong() returns (r: Option<Option<Int64>>)
      requires Valid()
      modifies this`position
      ensures Valid() && Got(old(Contents()), DecNullableLong(old(Remaining())), r)
    {
      hide DecBoolean, DecLong;
      var present := GetBoolean();
      if present.None? {
        return None;
      }
      if !present.value {
        return Some(None);
      }
      var value := GetLong();
      if value.None? {
        return None;
      }
      r := Some(value);
    }

    method GetNullableInt() returns (r: Option<Option<Int32>>)
      requires Valid()
      modifies this`position
      ensures Valid() && Got(old(Contents()), DecNullableInt(old(Remaining())), r)
    {
      hide DecBoolean, DecInt;
      var present := GetBoolean();
      if present.None? {
        return None;
      }
      if !present.value {
        return Some(None);
      }
      var value := GetInt();
      if value.None? {
        return None;
      }
      r := Some(value);
    }
  }
}
