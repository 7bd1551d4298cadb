/** Distributing log lines over buckets of one time window each. */
module LogAnalyzer {
  import LogBuckets
  import opened Wrappers

  datatype Line = Line(duration: int, timestamp: int, name: string)

  const INT_MAX := 0x7FFF_FFFF

  /** What is analyzed: names with this prefix, from start to end, in windows of this size. */
  datatype Query = Query(messageType: string, start: int, end: int, windowSize: int)

  predicate Selected(q: Query, l: Line) {
    q.start <= l.timestamp <= q.end && q.messageType <= l.name
  }

  /** The window of a selected line. */
  function Window(q: Query, l: Line): int
    requires q.windowSize > 0
  {
    (l.timestamp - q.start) / q.windowSize
  }

  /** Window k is the half-open interval of that size from start + k * windowSize on. */
  lemma WindowIsInterval(q: Query, l: Line, k: int)
    requires q.windowSize > 0
    ensures Window(q, l) == k <==> q.start + k * q.windowSize <= l.timestamp < q.start + (k + 1) * q.windowSize
  {
    var x, w := l.timestamp - q.start, q.windowSize;
    var n := x / w;
    assert x == n * w + x % w && (n + 1) * w == n * w + w;
    if n < k {
      ProductsOrdered(n + 1, k, w);
    } else if n > k {
      ProductsOrdered(k + 1, n, w);
    }
  }

  lemma ProductsOrdered(a: int, b: int, w: int)
    requires a <= b && w > 0
    ensures a * w <= b * w
  {
    assert (b - a) * w >= 0;
  }

  /** The durations of the selected lines in window k. */
  ghost function InWindow(q: Query, ls: seq<Line>, k: int): multiset<int>
    requires q.windowSize > 0
  {
    if ls == [] then multiset{} else InWindow(q, ls[..|ls| - 1], k) + Share(q, ls[|ls| - 1], k)
  }

  ghost function Share(q: Query, l: Line, k: int): multiset<int>
    requires q.windowSize > 0
  {
    if Selected(q, l) && Window(q, l) == k then multiset{l.duration} else multiset{}
  }

  /** One more than the last window with a selected line, or 0. */
  ghost function Windows(q: Query, ls: seq<Line>): nat
    requires q.windowSize > 0
  {
    if ls == [] then 0
    else Later(Windows(q, ls[..|ls| - 1]), q, ls[|ls| - 1])
  }

  ghost function Later(n: nat, q: Query, l: Line): nat
    requires q.windowSize > 0
  {
    if Selected(q, l) && Window(q, l) >= n then Window(q, l) + 1 else n
  }

  /** From start to end, both included, with a name that begins with the prefix, and in the k-th interval from start. */
  predicate Hit(q: Query, l: Line, k: int) {
    && q.start <= l.timestamp <= q.end
    && |q.messageType| <= |l.name| && l.name[..|q.messageType|] == q.messageType
    && q.start + k * q.windowSize <= l.timestamp < q.start + (k + 1) * q.windowSize
  }

  lemma HitIff(q: Query, l: Line, k: int)
    requires q.windowSize > 0
    ensures Hit(q, l, k) <==> Selected(q, l) && Window(q, l) == k
  {
    hide Window;
    WindowIsInterval(q, l, k);
    assert |q.messageType| <= |l.name| ==> (q.messageType <= l.name <==> l.name[..|q.messageType|] == q.messageType);
  }

  /** The line changes the k-th window exactly if it is a hit; then the window has its duration once more. */
  lemma OneLine(q: Query, ls: seq<Line>, l: Line, k: int)
    requires q.windowSize > 0
    ensures InWindow(q, ls + [l], k) == InWindow(q, ls, k) + if Hit(q, l, k) then multiset{l.duration} else multiset{}
  {
    hide Window, Selected, Hit, InWindow;
    OneMore(q, ls, l, k);
    HitIff(q, l, k);
  }

  /** Lines past the end, before the start, or whose name has the prefix elsewhere or not at all count nowhere. */
  lemma StrayLine(q: Query, ls: seq<Line>, l: Line, k: int)
    requires q.windowSize > 0
    requires l.timestamp < q.start || l.timestamp > q.end
             || |l.name| < |q.messageType| || l.name[..|q.messageType|] != q.messageType
    ensures InWindow(q, ls + [l], k) == InWindow(q, ls, k) && Windows(q, ls + [l]) == Windows(q, ls)
  {
    hide Window, InWindow, Windows;
    OneMore(q, ls, l, k);
    HitIff(q, l, Window(q, l));
  }

  ghost function Hits(q: Query, ls: seq<Line>, k: int, d: int): set<nat> {
    set i | 0 <= i < |ls| && Hit(q, ls[i], k) && ls[i].duration == d
  }

  lemma HitsOfLast(q: Query, ls: seq<Line>, l: Line, k: int, d: int)
    ensures |Hits(q, ls + [l], k, d)| == |Hits(q, ls, k, d)| + if Hit(q, l, k) && l.duration == d then 1 else 0
  {
    hide Hit;
    var more := ls + [l];
    assert forall i :: 0 <= i < |ls| ==> more[i] == ls[i];
    assert Hits(q, more, k, d) == Hits(q, ls, k, d) + if Hit(q, l, k) && l.duration == d then {|ls|} else {};
  }

  /** The window holds every duration as often as it has hits with that duration. */
  lemma {:induction false} WindowCounts(q: Query, ls: seq<Line>, k: int, d: int)
    requires q.windowSize > 0
    ensures InWindow(q, ls, k)[d] == |Hits(q, ls, k, d)|
    decreases |ls|
  {
    hide Hit;
    if ls != [] {
      hide Hits, InWindow;
      var n := |ls| - 1;
      WindowCounts(q, ls[..n], k, d);
      OneLine(q, ls[..n], ls[n], k);
      HitsOfLast(q, ls[..n], ls[n], k, d);
      assert ls == ls[..n] + [ls[n]];
    }
  }

  /** As many windows as the last hit needs, and none without hits. */
  lemma {:induction false} WindowsNeeded(q: Query, ls: seq<Line>)
    requires q.windowSize > 0
    ensures forall i, k :: 0 <= i < |ls| && Hit(q, ls[i], k) ==> k < Windows(q, ls)
    ensures Windows(q, ls) > 0 ==> exists i :: 0 <= i < |ls| && Hit(q, ls[i], Windows(q, ls) - 1)
    decreases |ls|
  {
    hide Hit, Window, Selected;
    if ls != [] {
      var n := |ls| - 1;
      WindowsNeeded(q, ls[..n]);
      forall i, k | 0 <= i < |ls| && Hit(q, ls[i], k) ensures k < Windows(q, ls) {
        HitIff(q, ls[i], k);
        assert i < n ==> ls[..n][i] == ls[i];
      }
      HitIff(q, ls[n], Window(q, ls[n]));
      if Windows(q, ls) > 0 {
        if Windows(q, ls) == Windows(q, ls[..n]) {
          var i :| 0 <= i < n && Hit(q, ls[..n][i], Windows(q, ls[..n]) - 1);
          assert Hit(q, ls[i], Windows(q, ls) - 1);
        } else {
          assert Hit(q, ls[n], Windows(q, ls) - 1);
        }
      }
    }
  }

  /** Neither the contents of a window nor the number of windows depends on the order of lines, or of files. */
  lemma {:induction false} OrderIsIrrelevant(q: Query, a: seq<Line>, b: seq<Line>, k: int)
    requires q.windowSize > 0 && multiset(a) == multiset(b)
    ensures InWindow(q, a, k) == InWindow(q, b, k)
    ensures Windows(q, a) == Windows(q, b)
    decreases |a|
  {
    assert |multiset(a)| == |a| && |multiset(b)| == |b|;
    if a != [] {
      hide Share, Later;
      var n := |a| - 1;
      var i := PlaceOfLast(a, b);
      OrderIsIrrelevant(q, a[..n], b[..i] + b[i + 1..], k);
      TakenOut(q, b, i, k);
    }
  }

  /** Where b has the last line of a; without it both have the same lines again. */
  lemma PlaceOfLast(a: seq<Line>, b: seq<Line>) returns (i: nat)
    requires a != [] && multiset(a) == multiset(b)
    ensures i < |b| && b[i] == a[|a| - 1]
    ensures multiset(a[..|a| - 1]) == multiset(b[..i] + b[i + 1..])
  {
    var n := |a| - 1;
    var l := a[n];
    assert a == a[..n] + [l];
    assert l in multiset(b);
    i :| 0 <= i < |b| && b[i] == l;
    assert b == b[..i] + [l] + b[i + 1..];
    assert multiset(b[..i] + b[i + 1..]) == multiset(b) - multiset{l};
  }

  lemma LaterCommutes(n: nat, q: Query, a: Line, b: Line)
    requires q.windowSize > 0
    ensures Later(Later(n, q, a), q, b) == Later(Later(n, q, b), q, a)
  {
    hide Selected, Window;
  }

  lemma {:induction false} TakenOut(q: Query, ls: seq<Line>, i: nat, k: int)
    requires q.windowSize > 0 && i < |ls|
    ensures var rest := ls[..i] + ls[i + 1..];
      && InWindow(q, ls, k) == InWindow(q, rest, k) + Share(q, ls[i], k)
      && Windows(q, ls) == Later(Windows(q, rest), q, ls[i])
    decreases |ls|
  {
    hide Selected, Window, Share, Later, InWindow, Windows;
    var n := |ls| - 1;
    var rest := ls[..i] + ls[i + 1..];
    assert ls == ls[..n] + [ls[n]];
    OneMore(q, ls[..n], ls[n], k);
    if i == n {
      assert rest == ls[..n];
    } else {
      var shorter := ls[..n];
      var less := shorter[..i] + shorter[i + 1..];
      TakenOut(q, shorter, i, k);
      assert rest == less + [ls[n]];
      OneMore(q, less, ls[n], k);
      LaterCommutes(Windows(q, less), q, ls[i], ls[n]);
      Swapped(InWindow(q, less, k), Share(q, ls[i], k), Share(q, ls[n], k));
    }
  }

  lemma OneMore(q: Query, ls: seq<Line>, l: Line, k: int)
    requires q.windowSize > 0
    ensures Windows(q, ls + [l]) == Later(Windows(q, ls), q, l)
    ensures InWindow(q, ls + [l], k) == InWindow(q, ls, k) + Share(q, l, k)
    ensures Selected(q, l) ==> Window(q, l) >= 0
  {
    hide Later, Share;
    assert (ls + [l])[..|ls|] == ls;
  }

  lemma Swapped(m: multiset<int>, a: multiset<int>, b: multiset<int>)
    ensures m + a + b == m + b + a
  {
  }

  datatype Error = PositionOverflow

  class LogAnalizer {
    const q: Query
    var buckets: seq<LogBuckets.Bucket>
    /** The lines processed so far. */
    ghost var lines: seq<Line>

    constructor (q: Query)
      requires q.windowSize > 0
      ensures Valid() && lines == [] && this.q == q && buckets == []
    {
      this.q := q;
      buckets, lines := [], [];
    }

    /** There is a bucket for each window up to the last used one; it starts with it and holds what is in it. */
    ghost predicate Valid()
      reads this, buckets
    {
      && q.windowSize > 0 && |buckets| == Windows(q, lines)
      && Distinct(buckets)
      && forall k :: 0 <= k < |buckets| ==> Holds(buckets[k], k, lines)
    }

    ghost predicate Holds(b: LogBuckets.Bucket, k: nat, ls: seq<Line>)
      requires q.windowSize > 0
      reads b
    {
      b.Valid() && b.added == InWindow(q, ls, k) && b.startTimestamp == q.start + k * q.windowSize
    }

    ghost predicate Distinct(bs: seq<LogBuckets.Bucket>) {
      forall j, k :: 0 <= j < k < |bs| ==> bs[j] != bs[k]
    }

    lemma {:induction false} NothingBeyond(ls: seq<Line>, k: int)
      requires q.windowSize > 0 && k >= Windows(q, ls)
      ensures InWindow(q, ls, k) == multiset{}
      decreases |ls|
    {
      if ls != [] {
        NothingBeyond(ls[..|ls| - 1], k);
      }
    }

    ghost function Objects(): set<object>
      reads this
    {
      set b | b in buckets
    }

    /** One more bucket, for a window that no line has used yet. */
    method AddBucket()
      requires q.windowSize > 0 && |buckets| >= Windows(q, lines)
      modifies this`buckets
      ensures |buckets| == |old(buckets)| + 1 && buckets[..|old(buckets)|] == old(buckets)
      ensures fresh(buckets[|old(buckets)|]) && Holds(buckets[|old(buckets)|], |old(buckets)|, lines)
    {
      hide InWindow, Windows;
      NothingBeyond(lines, |buckets|);
      var bucket := new LogBuckets.Bucket(q.start + |buckets| * q.windowSize);
      buckets := buckets + [bucket];
    }

    /** New buckets up to the position. */
    method Grow(pos: int)
      requires Valid() && pos >= 0
      modifies this`buckets
      ensures q.windowSize > 0 && Distinct(buckets)
      ensures |buckets| == if pos < old(|buckets|) then old(|buckets|) else pos + 1
      ensures forall k :: 0 <= k < |buckets| ==> Holds(buckets[k], k, lines)
      ensures fresh(Objects() - old(Objects()))
    {
      hide Holds, Windows, InWindow;
      while |buckets| <= pos
        invariant old(|buckets|) <= |buckets| && (|buckets| <= pos + 1 || |buckets| == old(|buckets|))
        invariant Distinct(buckets)
        invariant forall k :: 0 <= k < |buckets| ==> Holds(buckets[k], k, lines)
        invariant fresh(Objects() - old(Objects()))
        decreases pos - |buckets|
      {
        ghost var before := buckets;
        AddBucket();
        assert buckets == before + [buckets[|before|]];
      }
    }

    /** A selected line goes to the bucket of its window; a position that is no int ends the analysis. */
    method ProcessLine(l: Line) returns (r: Result<bool, Error>)
      requires Valid()
      modifies this, Objects()
      ensures r.Ok? ==> Valid() && lines == old(lines) + [l]
      ensures r.Err? <==> Selected(q, l) && Window(q, l) > INT_MAX
      ensures r.Err? ==> Valid() && lines == old(lines)
      ensures fresh(Objects() - old(Objects()))
    {
      hide Holds, InWindow, Windows, Selected;
      ghost var before := lines;
      OneMore(q, before, l, 0);
      if !IsSelected(l) {
        forall k | 0 <= k < |buckets| ensures Holds(buckets[k], k, before + [l]) {
          ElsewhereHolds(buckets[k], k, before, l);
        }
        lines := lines + [l];
        return Ok(true);
      }
      var pos := (l.timestamp - q.start) / q.windowSize;
      if pos > INT_MAX {
        return Err(PositionOverflow);
      }
      Grow(pos);
      assert buckets[pos] in buckets;
      AddLine(buckets[pos], pos, l);
      forall k | 0 <= k < |buckets| ensures Holds(buckets[k], k, before + [l]) {
        if k != pos {
          ElsewhereHolds(buckets[k], k, before, l);
        }
      }
      lines := lines + [l];
      return Ok(true);
    }

    predicate IsSelected(l: Line)
      ensures IsSelected(l) <==> Selected(q, l)
    {
      !(l.timestamp < q.start || l.timestamp > q.end) && q.messageType <= l.name
    }

    lemma ElsewhereHolds(b: LogBuckets.Bucket, k: nat, ls: seq<Line>, l: Line)
      requires q.windowSize > 0 && Holds(b, k, ls) && !(Selected(q, l) && Window(q, l) == k)
      ensures Holds(b, k, ls + [l])
    {
      OneMore(q, ls, l, k);
    }

    method AddLine(bucket: LogBuckets.Bucket, pos: nat, l: Line)
      requires q.windowSize > 0 && Holds(bucket, pos, lines) && Selected(q, l) && Window(q, l) == pos
      modifies bucket
      ensures Holds(bucket, pos, lines + [l])
    {
      OneMore(q, lines, l, pos);
      WindowIsInterval(q, l, pos);
      bucket.AddValue(l.duration);
      bucket.AddTimestamp(l.timestamp);
    }

    /** All lines of a file, as long as their positions are ints. */
    method ProcessLines(ls: seq<Line>) returns (r: Result<bool, Error>)
      requires Valid()
      modifies this, Objects()
      ensures Valid()
      ensures r.Ok? ==> lines == old(lines) + ls
      ensures r.Err? <==> exists l <- ls :: Selected(q, l) && Window(q, l) > INT_MAX
      ensures fresh(Objects() - old(Objects()))
    {
      hide Windows, InWindow, Selected, Window, Distinct, Holds;
      for i := 0 to |ls|
        invariant Valid() && lines == old(lines) + ls[..i]
        invariant forall l <- ls[..i] :: !(Selected(q, l) && Window(q, l) > INT_MAX)
        invariant fresh(Objects() - old(Objects()))
      {
        var one := ProcessLine(ls[i]);
        if one.Err? {
          assert ls[i] in ls;
          return one;
        }
        assert ls[..i + 1] == ls[..i] + [ls[i]];
      }
      assert ls[..|ls|] == ls;
      r := Ok(true);
    }
  }
}
