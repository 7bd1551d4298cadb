/**
 The log analyzer: durations are kept as a histogram with cached sorted keys instead of a list, and log lines are
 distributed over time windows.
 */
module LogBuckets {
  import Bags
  import opened Wrappers

  lemma Member<T>(s: set<T>) returns (x: T)
    requires s != {}
    ensures x in s
  {
    x :| x in s;
  }

  lemma NothingCounted<T(!new)>(m: multiset<T>)
    requires forall x :: m[x] == 0
    ensures m == multiset{}
  {
  }

  // ---- sorted lists and histograms ---------------------------------------------------------------

  ghost predicate Sorted(s: seq<int>) {
    forall i, j :: 0 <= i < j < |s| ==> s[i] <= s[j]
  }

  ghost predicate Ascending(s: seq<int>) {
    forall i, j :: 0 <= i < j < |s| ==> s[i] < s[j]
  }

  ghost function Repeated(d: int, n: nat): (r: seq<int>)
    ensures |r| == n && forall i :: 0 <= i < n ==> r[i] == d
  {
    seq(n, _ => d)
  }

  lemma {:induction false} RepeatedCount(d: int, n: nat)
    ensures multiset(Repeated(d, n))[d] == n
    ensures forall x :: x != d ==> multiset(Repeated(d, n))[x] == 0
  {
    if n > 0 {
      RepeatedCount(d, n - 1);
      assert Repeated(d, n) == Repeated(d, n - 1) + [d];
      assert multiset(Repeated(d, n)) == multiset(Repeated(d, n - 1)) + multiset{d};
    }
  }

  /** The flat list that keys and counts stand for. */
  ghost function Flat(keys: seq<int>, values: map<int, nat>): seq<int>
    requires forall k <- keys :: k in values
  {
    if keys == [] then [] else Repeated(keys[0], values[keys[0]]) + Flat(keys[1..], values)
  }

  lemma {:induction false} FlatElements(keys: seq<int>, values: map<int, nat>)
    requires Ascending(keys) && forall k <- keys :: k in values
    ensures forall x :: multiset(Flat(keys, values))[x] == if x in keys then values[x] else 0
    ensures forall x <- Flat(keys, values) :: x in keys
  {
    if keys != [] {
      var head, rest := Repeated(keys[0], values[keys[0]]), Flat(keys[1..], values);
      FlatElements(keys[1..], values);
      RepeatedCount(keys[0], values[keys[0]]);
      assert multiset(head + rest) == multiset(head) + multiset(rest);
      assert keys[0] !in keys[1..];
      assert forall x :: x in keys <==> x == keys[0] || x in keys[1..];
    }
  }

  lemma {:induction false} FlatSorted(keys: seq<int>, values: map<int, nat>)
    requires Ascending(keys) && forall k <- keys :: k in values
    ensures Sorted(Flat(keys, values))
  {
    if keys != [] {
      hide Sorted;
      var head, rest := Repeated(keys[0], values[keys[0]]), Flat(keys[1..], values);
      FlatSorted(keys[1..], values);
      FlatElements(keys[1..], values);
      forall x <- rest ensures keys[0] <= x { KeysAbove(keys, x); }
      SortedBehind(keys[0], head, rest);
    }
  }

  lemma KeysAbove(keys: seq<int>, x: int)
    requires Ascending(keys) && keys != [] && x in keys[1..]
    ensures keys[0] < x
  {
  }

  lemma SortedBehind(d: int, head: seq<int>, rest: seq<int>)
    requires Sorted(rest) && (forall i :: 0 <= i < |head| ==> head[i] == d) && forall x <- rest :: d <= x
    ensures Sorted(head + rest)
  {
    assert forall i :: 0 <= i < |rest| ==> rest[i] in rest;
  }

  lemma {:induction false} FlatSplit(keys: seq<int>, values: map<int, nat>, j: nat)
    requires j <= |keys| && forall k <- keys :: k in values
    ensures (forall k <- keys[..j] :: k in values) && (forall k <- keys[j..] :: k in values)
    ensures Flat(keys, values) == Flat(keys[..j], values) + Flat(keys[j..], values)
  {
    if j == 0 {
      assert keys[..0] == [] && keys[0..] == keys;
    } else {
      hide Repeated;
      FlatSplit(keys[1..], values, j - 1);
      assert keys[..j][1..] == keys[1..][..j - 1] && keys[j..] == keys[1..][j - 1..];
      var head, a, b := Repeated(keys[0], values[keys[0]]), Flat(keys[1..][..j - 1], values), Flat(keys[j..], values);
      assert head + (a + b) == head + a + b;
    }
  }

  lemma SortedHead(s: seq<int>, x: int)
    requires Sorted(s) && s != [] && x in multiset(s)
    ensures s[0] <= x
  {
    assert x in s;
  }

  lemma SameTail<T(!new)>(x: T, a: multiset<T>, b: multiset<T>)
    requires multiset{x} + a == multiset{x} + b
    ensures a == b
  {
    assert a == multiset{x} + a - multiset{x};
    assert b == multiset{x} + b - multiset{x};
  }

  lemma SortedTail(s: seq<int>)
    requires Sorted(s) && s != []
    ensures Sorted(s[1..])
  {
  }

  /** A sorted list is determined by its elements. */
  lemma {:induction false} SortedUnique(a: seq<int>, b: seq<int>)
    requires Sorted(a) && Sorted(b) && multiset(a) == multiset(b)
    ensures a == b
    decreases |a|
  {
    hide Sorted;
    assert |multiset(a)| == |a| && |multiset(b)| == |b|;
    if a != [] {
      assert a[0] in multiset(b) && b[0] in multiset(a);
      SortedHead(a, b[0]);
      SortedHead(b, a[0]);
      SortedTail(a);
      SortedTail(b);
      TailsSame(a, b);
      SortedUnique(a[1..], b[1..]);
      assert a == [a[0]] + a[1..] && b == [b[0]] + b[1..];
    }
  }

  lemma TailsSame<T(!new)>(a: seq<T>, b: seq<T>)
    requires a != [] && b != [] && a[0] == b[0] && multiset(a) == multiset(b)
    ensures multiset(a[1..]) == multiset(b[1..])
  {
    Bags.PopMultiset(a);
    Bags.PopMultiset(b);
    SameTail(a[0], multiset(a[1..]), multiset(b[1..]));
  }

  function Clamp(n: int, low: int, high: int): int {
    if n < low then low else if n > high then high else n
  }

  /**
   r is the k-th of n sorted values, counting from 1, if 100 * k is the last multiple of 100 up to
   percentile * (n + 1); the first or the last value if there is no such k among 1 to n.
   */
  ghost predicate IsPercentile(percentile: real, list: seq<int>, r: int)
    requires list != []
  {
    var n, x := |list|, percentile * (|list| + 1) as real;
    && (forall i :: 0 <= i < n && 100.0 * (i + 1) as real <= x < 100.0 * (i + 2) as real ==> r == list[i])
    && (x < 100.0 ==> r == list[0])
    && (x >= 100.0 * n as real ==> r == list[n - 1])
  }

  function Position(percentile: real, count: int): int {
    (percentile * (count + 1) as real / 100.0).Floor
  }

  lemma ClampedIsPercentile(percentile: real, list: seq<int>)
    requires list != []
    ensures var k := Clamp(Position(percentile, |list|), 1, |list|);
      1 <= k <= |list| && IsPercentile(percentile, list, list[k - 1])
  {
    HundredsBelow(percentile * (|list| + 1) as real, Position(percentile, |list|));
  }

  lemma HundredsBelow(x: real, k: int)
    requires k == (x / 100.0).Floor
    ensures 100.0 * k as real <= x < 100.0 * (k + 1) as real
  {
  }

  class Bucket {
    var values: map<int, nat>
    var startTimestamp: int
    var cachedDurations: Option<seq<int>>
    /** Everything added so far. */
    ghost var added: multiset<int>

    constructor (startTimestamp: int)
      ensures Valid() && added == multiset{} && this.startTimestamp == startTimestamp
    {
      values, cachedDurations, added := map[], None, multiset{};
      this.startTimestamp := startTimestamp;
    }

    /** The histogram counts what was added, and the cache, if there is one, holds its keys in order. */
    ghost predicate Valid()
      reads this
    {
      && (forall d :: d in values <==> d in added)
      && (forall d <- values :: values[d] == added[d])
      && (cachedDurations.Some? ==> SortedKeys(cachedDurations.value))
    }

    ghost predicate SortedKeys(keys: seq<int>)
      reads this
    {
      Ascending(keys) && forall d :: d in keys <==> d in values
    }

    method Count() returns (totalCount: nat)
      requires Valid()
      ensures totalCount == |added|
    {
      totalCount := 0;
      var keys := values.Keys;
      ghost var rest := added;
      while keys != {}
        invariant keys <= values.Keys
        invariant forall d :: rest[d] == if d in keys then values[d] else 0
        invariant totalCount + |rest| == |added|
        decreases keys
      {
        ghost var _ := Member(keys);
        var d :| d in keys;
        totalCount := totalCount + values[d];
        keys := keys - {d};
        rest := rest[d := 0];
      }
      assert forall d: int :: rest[d] == 0;
      NothingCounted(rest);
    }

    /** The keys in ascending order, computed once until the next value is added. */
    method GetDurations() returns (durations: seq<int>)
      requires Valid()
      modifies this`cachedDurations
      ensures Valid() && SortedKeys(durations)
    {
      if cachedDurations.Some? {
        return cachedDurations.value;
      }
      durations := Sort(values.Keys);
      cachedDurations := Some(durations);
    }

    method AddValue(duration: int)
      requires Valid()
      modifies this`values, this`cachedDurations, this`added
      ensures Valid() && added == old(added) + multiset{duration}
    {
      cachedDurations := None;
      if duration !in values {
        values := values[duration := 0];
      }
      values := values[duration := values[duration] + 1];
      added := added + multiset{duration};
    }

    method AddTimestamp(timestamp: int)
      requires Valid()
      modifies this`startTimestamp
      ensures Valid()
      ensures startTimestamp == if timestamp < old(startTimestamp) then timestamp else old(startTimestamp)
    {
      if timestamp < startTimestamp {
        startTimestamp := timestamp;
      }
    }

    /** The same as in the sorted list of all added values, however it came about; 0 without values. */
    method Percentile(percentile: real) returns (r: int)
      requires Valid()
      modifies this`cachedDurations
      ensures Valid()
      ensures added == multiset{} ==> r == 0
      ensures forall list :: Sorted(list) && multiset(list) == added && list != []
                             ==> IsPercentile(percentile, list, r)
    {
      hide Sorted, Flat, IsPercentile, Clamp, Position;
      if values == map[] {
        NoValues();
        return 0;
      }
      var durations := GetDurations();
      var count := Count();
      var intPos := Position(percentile, count);
      FlatIsAdded(durations);
      r := Select(durations, values, intPos);
      ghost var flat := Flat(durations, values);
      ClampedIsPercentile(percentile, flat);
      forall list | Sorted(list) && multiset(list) == added
        ensures list == flat
      {
        SortedUnique(list, flat);
      }
    }

    lemma NoValues()
      requires Valid() && values == map[]
      ensures added == multiset{}
    {
      assert forall d: int :: d !in added;
      NothingCounted(added);
    }

    /** The flat list is a sorted list of what was added. */
    lemma FlatIsAdded(keys: seq<int>)
      requires Valid() && SortedKeys(keys) && values != map[]
      ensures Sorted(Flat(keys, values)) && multiset(Flat(keys, values)) == added
      ensures |Flat(keys, values)| == |added| && keys != [] && forall k <- keys :: values[k] > 0
    {
      var flat := Flat(keys, values);
      FlatElements(keys, values);
      FlatSorted(keys, values);
      assert |multiset(flat)| == |flat|;
      var d := Member(values.Keys);
      assert d in keys;
      forall x ensures multiset(flat)[x] == added[x] {
        assert x in keys <==> x in added;
      }
      Same(multiset(flat), added);
    }
  }

  lemma Same<T(!new)>(a: multiset<T>, b: multiset<T>)
    requires forall x :: a[x] == b[x]
    ensures a == b
  {
  }

  /** Walks the keys until their counts reach the position; the last key if they do not. */
  method Select(durations: seq<int>, values: map<int, nat>, intPos: int) returns (r: int)
    requires durations != [] && forall k <- durations :: k in values && values[k] > 0
    ensures var flat := Flat(durations, values);
      flat != [] && r == flat[Clamp(intPos, 1, |flat|) - 1]
  {
    hide Flat;
    LastKey(durations, values);
    var currentPos := 0;
    assert Flat(durations[..0], values) == [] by { FlatNone(values); assert durations[..0] == []; }
    for i := 0 to |durations|
      invariant currentPos == |Flat(durations[..i], values)|
      invariant i > 0 ==> currentPos < intPos
    {
      NextKey(durations, values, i);
      currentPos := currentPos + values[durations[i]];
      if currentPos >= intPos {
        return durations[i];
      }
    }
    assert durations[..|durations|] == durations;
    r := durations[|durations| - 1];
  }

  lemma FlatNone(values: map<int, nat>)
    ensures Flat([], values) == []
  {
  }

  /** The keys taken smallest first. */
  method Sort(keys: set<int>) returns (sorted: seq<int>)
    ensures Ascending(sorted) && forall d :: d in sorted <==> d in keys
  {
    sorted := [];
    var left := keys;
    while left != {}
      invariant left <= keys && Ascending(sorted)
      invariant forall d :: d in keys <==> d in sorted || d in left
      invariant forall d, x :: d in sorted && x in left ==> d < x
      decreases left
    {
      SmallestExists(left);
      assert forall i :: 0 <= i < |sorted| ==> sorted[i] in sorted;
      var d :| d in left && forall x <- left :: d <= x;
      sorted := sorted + [d];
      left := left - {d};
    }
  }

  lemma {:induction false} SmallestExists(s: set<int>)
    requires s != {}
    ensures exists d :: d in s && forall x <- s :: d <= x
  {
    var d := Member(s);
    if s != {d} {
      SmallestExists(s - {d});
      var e :| e in s - {d} && forall x <- s - {d} :: e <= x;
      var least := if d < e then d else e;
      assert forall x <- s :: x == d || x in s - {d};
      assert least in s && forall x <- s :: least <= x;
    } else {
      assert forall x <- s :: d <= x;
    }
  }

  /** The flat list has the i-th key where the counts before it end. */
  lemma NextKey(keys: seq<int>, values: map<int, nat>, i: nat)
    requires i < |keys| && forall k <- keys :: k in values
    ensures var from := |Flat(keys[..i], values)|;
      && |Flat(keys[..i + 1], values)| == from + values[keys[i]] <= |Flat(keys, values)|
      && forall x :: from <= x < from + values[keys[i]] ==> Flat(keys, values)[x] == keys[i]
  {
    FlatSplit(keys, values, i);
    FlatSplit(keys, values, i + 1);
    FlatSplit(keys[..i + 1], values, i);
    assert keys[..i + 1][..i] == keys[..i] && keys[..i + 1][i..] == [keys[i]];
    assert keys[i..][0] == keys[i];
    assert Flat([keys[i]], values) == Repeated(keys[i], values[keys[i]]) + Flat([], values);
  }

  lemma LastKey(keys: seq<int>, values: map<int, nat>)
    requires keys != [] && forall k <- keys :: k in values && values[k] > 0
    ensures var flat := Flat(keys, values); flat != [] && flat[|flat| - 1] == keys[|keys| - 1]
  {
    NextKey(keys, values, |keys| - 1);
    assert keys[..|keys|] == keys;
  }
}
