/** Sums of multisets: who holds what, counted over many places. */
module Bags {
  function Gather<T>(parts: seq<multiset<T>>): multiset<T> {
    if parts == [] then multiset{} else parts[0] + Gather(parts[1..])
  }

  lemma {:induction false} GatherAppend<T>(parts: seq<multiset<T>>, m: multiset<T>)
    ensures Gather(parts + [m]) == Gather(parts) + m
  {
    if parts == [] {
      assert [m][1..] == [];
    } else {
      GatherAppend(parts[1..], m);
      assert (parts + [m])[1..] == parts[1..] + [m];
    }
  }

  lemma {:induction false} GatherUpdate<T>(parts: seq<multiset<T>>, i: nat, m: multiset<T>)
    requires i < |parts|
    ensures Gather(parts[i := m]) + parts[i] == Gather(parts) + m
  {
    if i == 0 {
      assert parts[0 := m][1..] == parts[1..];
    } else {
      GatherUpdate(parts[1..], i - 1, m);
      var next := parts[i := m];
      assert next[1..] == parts[1..][i - 1 := m];
      Shift(parts[0], Gather(next[1..]), parts[i], Gather(parts[1..]), m);
    }
  }

  lemma Shift<T>(a: multiset<T>, x: multiset<T>, p: multiset<T>, g: multiset<T>, m: multiset<T>)
    requires x + p == g + m
    ensures a + x + p == a + g + m
  {
    assert a + x + p == a + (x + p) && a + g + m == a + (g + m);
  }

  lemma {:induction false} GatherIn<T>(parts: seq<multiset<T>>, i: nat)
    requires i < |parts|
    ensures parts[i] <= Gather(parts)
  {
    if i > 0 {
      GatherIn(parts[1..], i - 1);
    }
  }

  lemma {:induction false} GatherTwo<T>(parts: seq<multiset<T>>, i: nat, j: nat)
    requires i < j < |parts|
    ensures parts[i] + parts[j] <= Gather(parts)
  {
    if i == 0 {
      GatherIn(parts[1..], j - 1);
    } else {
      GatherTwo(parts[1..], i - 1, j - 1);
    }
  }

  lemma {:induction false} GatherFind<T>(parts: seq<multiset<T>>, x: T) returns (i: nat)
    requires x in Gather(parts)
    ensures i < |parts| && x in parts[i]
  {
    if x in parts[0] {
      i := 0;
    } else {
      var k := GatherFind(parts[1..], x);
      i := k + 1;
    }
  }

  /** a is b with m taken out and n put in, element by element. */
  ghost predicate Exchanged<T(!new)>(a: multiset<T>, b: multiset<T>, m: multiset<T>, n: multiset<T>) {
    forall x :: a[x] + m[x] == b[x] + n[x]
  }

  lemma ExchangedIf<T(!new)>(a: multiset<T>, b: multiset<T>, m: multiset<T>, n: multiset<T>)
    requires a + m == b + n
    ensures Exchanged(a, b, m, n)
  {
    forall x ensures a[x] + m[x] == b[x] + n[x] {
      assert (a + m)[x] == (b + n)[x];
    }
  }

  lemma PopMultiset<T>(s: seq<T>)
    requires s != []
    ensures multiset(s) == multiset{s[0]} + multiset(s[1..])
  {
    assert s == [s[0]] + s[1..];
  }
}
