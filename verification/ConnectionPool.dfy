/**
 The pool of database connections. Each worker takes a connection for one request and gives it back on every way
 out; an SQL exception closes it first, and the pool replaces closed connections as they come back.
 */
module ConnectionPool {
  import opened Wrappers

  // ---- interleaved workers -----------------------------------------------------------------------

  /**
   Connections are numbered as they are created. A worker holds at most one. The pool is a bounded queue of the
   given size; overflown says that adding to it has failed.
   */
  datatype State = State(
    size: nat, pool: seq<nat>, hands: seq<Option<nat>>, closed: set<nat>, created: nat, lost: nat, overflown: bool)

  /**
   Take: may find nothing and wait, or be interrupted, which changes nothing. SqlError: the worker closes its
   connection. Return: the last thing a worker does with it; replacing a closed connection can fail.
   */
  datatype Step = Take(worker: nat) | SqlError(worker: nat) | Return(worker: nat, recreated: bool)

  predicate Enabled(s: State, step: Step) {
    match step
    case Take(w) => w < |s.hands| && s.hands[w].None? && s.pool != []
    case SqlError(w) => w < |s.hands| && s.hands[w].Some?
    case Return(w, _) => w < |s.hands| && s.hands[w].Some?
  }

  function Next(s: State, step: Step): State
    requires Enabled(s, step)
  {
    match step
    case Take(w) => s.(pool := s.pool[1..], hands := s.hands[w := Some(s.pool[0])])
    case SqlError(w) => s.(closed := s.closed + {s.hands[w].value})
    case Return(w, recreated) =>
      var c := s.hands[w].value;
      var s1 := s.(hands := s.hands[w := None]);
      if c !in s.closed then Added(s1, c)
      else if recreated then Added(s1.(created := s.created + 1), s.created)
      else s1.(lost := s.lost + 1)
  }

  /** Adding to a full queue fails. */
  function Added(s: State, c: nat): State {
    if |s.pool| < s.size then s.(pool := s.pool + [c]) else s.(overflown := true)
  }

  predicate Leads(steps: seq<Step>, start: State, s: State)
    decreases |steps|
  {
    if steps == [] then s == start
    else Enabled(start, steps[0]) && Leads(steps[1..], Next(start, steps[0]), s)
  }

  /** A full pool of new connections, and workers without any. */
  function Initial(size: nat, workers: nat): State {
    State(size, seq(size, i requires i >= 0 => i), seq(workers, _ => None), {}, size, 0, false)
  }

  ghost predicate Reachable(s: State) {
    exists steps, size, workers :: Leads(steps, Initial(size, workers), s)
  }

  ghost function Held(hands: seq<Option<nat>>): nat {
    if hands == [] then 0 else (if hands[0].Some? then 1 else 0) + Held(hands[1..])
  }

  lemma {:induction false} HeldSet(hands: seq<Option<nat>>, w: nat, h: Option<nat>)
    requires w < |hands|
    ensures Held(hands[w := h]) + (if hands[w].Some? then 1 else 0) == Held(hands) + if h.Some? then 1 else 0
  {
    if w == 0 {
      assert hands[0 := h][1..] == hands[1..];
    } else {
      HeldSet(hands[1..], w - 1, h);
      assert hands[w := h][1..] == hands[1..][w - 1 := h];
    }
  }

  lemma {:induction false} HeldNone(hands: seq<Option<nat>>)
    requires forall w :: 0 <= w < |hands| ==> hands[w].None?
    ensures Held(hands) == 0
  {
    if hands != [] {
      HeldNone(hands[1..]);
    }
  }

  ghost predicate Distinct(s: State) {
    && (forall i, j :: 0 <= i < j < |s.pool| ==> s.pool[i] != s.pool[j])
    && (forall v, w :: 0 <= v < w < |s.hands| && s.hands[v].Some? ==> s.hands[v] != s.hands[w])
    && (forall w :: 0 <= w < |s.hands| && s.hands[w].Some? ==> s.hands[w].value !in s.pool)
  }

  ghost predicate Inv(s: State) {
    && Distinct(s)
    && (forall c <- s.pool :: c < s.created && c !in s.closed)
    && (forall c <- s.closed :: c < s.created)
    && (forall w :: 0 <= w < |s.hands| && s.hands[w].Some? ==> s.hands[w].value < s.created)
    && |s.pool| + Held(s.hands) + s.lost == s.size
    && !s.overflown
  }

  lemma TakeKeeps(s: State, w: nat)
    requires Inv(s) && Enabled(s, Take(w))
    ensures Inv(Next(s, Take(w)))
  {
    hide Held;
    HeldSet(s.hands, w, Some(s.pool[0]));
    var t := Next(s, Take(w));
    assert forall c <- t.pool :: c in s.pool;
    assert s.pool[0] in s.pool && s.pool[0] !in t.pool;
  }

  lemma SqlErrorKeeps(s: State, w: nat)
    requires Inv(s) && Enabled(s, SqlError(w))
    ensures Inv(Next(s, SqlError(w)))
  {
    hide Held;
  }

  /** Everything in order, but one connection less than the size says: connection c is in nobody's hands. */
  ghost predicate OneMissing(s: State, c: nat) {
    && Distinct(s) && c < s.created && c !in s.pool
    && (forall x <- s.pool :: x < s.created && x !in s.closed)
    && (forall x <- s.closed :: x < s.created)
    && (forall w :: 0 <= w < |s.hands| && s.hands[w].Some? ==> s.hands[w].value < s.created && s.hands[w].value != c)
    && |s.pool| + Held(s.hands) + s.lost + 1 == s.size
    && !s.overflown
  }

  lemma HandedBack(s: State, w: nat)
    requires Inv(s) && w < |s.hands| && s.hands[w].Some?
    ensures OneMissing(s.(hands := s.hands[w := None]), s.hands[w].value)
  {
    hide Held;
    HeldSet(s.hands, w, None);
  }

  lemma AddedKeeps(s: State, c: nat)
    requires OneMissing(s, c) && c !in s.closed
    ensures Inv(Added(s, c))
  {
    hide Held;
    var t := Added(s, c);
    assert t.pool == s.pool + [c];
    assert forall x <- t.pool :: x in s.pool || x == c;
  }

  lemma ReturnKeeps(s: State, w: nat, recreated: bool)
    requires Inv(s) && Enabled(s, Return(w, recreated))
    ensures Inv(Next(s, Return(w, recreated)))
  {
    hide Held, Added;
    HandedBack(s, w);
    var c := s.hands[w].value;
    var s1 := s.(hands := s.hands[w := None]);
    if c !in s.closed {
      AddedKeeps(s1, c);
    } else if recreated {
      NewIsMissing(s1, c);
      AddedKeeps(s1.(created := s.created + 1), s.created);
    }
  }

  /** A new connection takes the place of the missing one. */
  lemma NewIsMissing(s: State, c: nat)
    requires OneMissing(s, c)
    ensures OneMissing(s.(created := s.created + 1), s.created) && s.created !in s.closed
  {
    hide Held;
  }

  lemma StepKeeps(s: State, step: Step)
    requires Inv(s) && Enabled(s, step)
    ensures Inv(Next(s, step))
  {
    hide Inv;
    match step
    case Take(w) => TakeKeeps(s, w);
    case SqlError(w) => SqlErrorKeeps(s, w);
    case Return(w, recreated) => ReturnKeeps(s, w, recreated);
  }

  lemma {:induction false} RunKeeps(steps: seq<Step>, start: State, s: State)
    requires Inv(start) && Leads(steps, start, s)
    ensures Inv(s)
    decreases |steps|
  {
    hide Inv, Enabled, Next;
    if steps != [] {
      StepKeeps(start, steps[0]);
      RunKeeps(steps[1..], Next(start, steps[0]), s);
    }
  }

  lemma ReachableInv(s: State)
    requires Reachable(s)
    ensures Inv(s)
  {
    hide Leads;
    var steps, size, workers :| Leads(steps, Initial(size, workers), s);
    HeldNone(Initial(size, workers).hands);
    RunKeeps(steps, Initial(size, workers), s);
  }

  /** Conservation: pooled, held and lost connections always make up the pool's size, so that adding never fails. */
  lemma ConnectionsConserved(s: State)
    requires Reachable(s)
    ensures |s.pool| + Held(s.hands) + s.lost == s.size
    ensures !s.overflown
  {
    hide Reachable;
    ReachableInv(s);
  }

  /** No connection is with two workers, with a worker and in the pool, or twice in the pool. */
  lemma ConnectionsAreExclusive(s: State)
    requires Reachable(s)
    ensures forall v, w :: 0 <= v < w < |s.hands| && s.hands[v].Some? ==> s.hands[v] != s.hands[w]
    ensures forall w :: 0 <= w < |s.hands| && s.hands[w].Some? ==> s.hands[w].value !in s.pool
    ensures forall i, j :: 0 <= i < j < |s.pool| ==> s.pool[i] != s.pool[j]
  {
    hide Reachable;
    ReachableInv(s);
  }

  /** A worker that takes a connection gets an open one. */
  lemma TakenIsOpen(s: State, w: nat)
    requires Reachable(s) && Enabled(s, Take(w))
    ensures var t := Next(s, Take(w)); t.hands[w].Some? && t.hands[w].value !in t.closed
  {
    hide Reachable;
    ReachableInv(s);
  }

  /**
   A connection is lost if and only if it is closed and the replacement fails. Otherwise the pool gets it back as
   its last one, or in its place one that no worker has ever had.
   */
  lemma ReturnLosesIff(s: State, w: nat, recreated: bool)
    requires Reachable(s) && Enabled(s, Return(w, recreated))
    ensures var t, c := Next(s, Return(w, recreated)), s.hands[w].value;
      && t.hands[w].None? && t.lost - s.lost == (if c in s.closed && !recreated then 1 else 0)
      && (c !in s.closed ==> t.pool == s.pool + [c])
      && (c in s.closed && recreated ==>
            |t.pool| == |s.pool| + 1 && t.pool[..|s.pool|] == s.pool
            && var spare := t.pool[|s.pool|];
               spare !in s.pool && spare !in s.closed && forall v :: 0 <= v < |s.hands| ==> s.hands[v] != Some(spare))
      && (c in s.closed && !recreated ==> t.pool == s.pool)
  {
    hide Reachable;
    ReachableInv(s);
    SomeoneHolds(s.hands, w);
  }

  lemma {:induction false} SomeoneHolds(hands: seq<Option<nat>>, w: nat)
    requires w < |hands| && hands[w].Some?
    ensures Held(hands) > 0
  {
    if w > 0 {
      SomeoneHolds(hands[1..], w - 1);
    }
  }

  /** Without failed replacements nothing is lost: when all workers are done, the pool is full again. */
  lemma {:induction false} FullAgain(steps: seq<Step>, start: State, s: State)
    requires Inv(start) && Leads(steps, start, s)
    requires forall step <- steps :: step.Return? ==> step.recreated
    requires forall w :: 0 <= w < |s.hands| ==> s.hands[w].None?
    ensures |s.pool| == start.size - start.lost
    decreases |steps|
  {
    if steps == [] {
      HeldNone(s.hands);
    } else {
      StepKeeps(start, steps[0]);
      assert steps[0] in steps && forall step <- steps[1..] :: step in steps;
      FullAgain(steps[1..], Next(start, steps[0]), s);
    }
  }

  // ---- the objects -------------------------------------------------------------------------------

  datatype Error = SqlException | MlmqException | PoolException

  class DbConnection {
    var closed: bool

    constructor ()
      ensures !closed
    {
      closed := false;
    }

    method Close()
      modifies this
      ensures closed
    {
      closed := true;
    }
  }

  class DbConnectionPool {
    var connections: seq<DbConnection>
    const poolSize: nat

    constructor (poolSize: nat)
      ensures connections == [] && this.poolSize == poolSize
    {
      this.poolSize := poolSize;
      connections := [];
    }

    ghost predicate Valid()
      reads this, connections
    {
      && |connections| <= poolSize
      && (forall i, j :: 0 <= i < j < |connections| ==> connections[i] != connections[j])
      && (forall c <- connections :: !c.closed)
    }

    /** Fills the pool. Creating a connection may fail; those before it are pooled. */
    method Init(failsAt: Option<nat>) returns (r: Result<bool, Error>)
      requires connections == []
      modifies this
      ensures Valid() && forall c <- connections :: fresh(c)
      ensures r.Ok? <==> failsAt.None? || failsAt.value >= poolSize
      ensures |connections| == if r.Ok? then poolSize else failsAt.value
    {
      var i := 0;
      while i < poolSize
        invariant i == |connections| <= poolSize && Valid()
        invariant failsAt.Some? ==> i <= failsAt.value
        invariant forall c <- connections :: fresh(c)
      {
        if failsAt == Some(i) {
          return Err(MlmqException);
        }
        var connection := new DbConnection();
        connections := connections + [connection];
        i := i + 1;
      }
      return Ok(true);
    }

    /** The oldest pooled connection; an exception if interrupted while waiting for one. */
    method GetConnection() returns (connection: Result<DbConnection, Error>)
      requires Valid()
      modifies this
      ensures Valid()
      ensures old(connections) == [] ==> connection == Err(MlmqException) && connections == []
      ensures old(connections) != [] ==>
                connection == Ok(old(connections)[0]) && connections == old(connections)[1..]
                && connection.value !in connections && !connection.value.closed
    {
      if connections == [] {
        return Err(MlmqException);
      }
      connection := Ok(connections[0]);
      connections := connections[1..];
    }

    method ReturnConnection(connection: DbConnection, recreated: bool) returns (r: Result<bool, Error>)
      requires Valid() && connection !in connections
      modifies this
      ensures Valid()
      ensures !connection.closed ==>
                if |old(connections)| < poolSize then r == Ok(true) && connections == old(connections) + [connection]
                else r == Err(PoolException) && connections == old(connections)
      ensures connection.closed && !recreated ==> r == Err(MlmqException) && connections == old(connections)
      ensures connection.closed && recreated ==>
                if |old(connections)| < poolSize then
                  r == Ok(true) && |connections| == |old(connections)| + 1
                  && connections[..|old(connections)|] == old(connections) && fresh(connections[|old(connections)|])
                else r == Err(PoolException) && connections == old(connections)
    {
      var returned := connection;
      if connection.closed {
        if !recreated {
          return Err(MlmqException);
        }
        returned := new DbConnection();
      }
      if |connections| >= poolSize {
        return Err(PoolException);
      }
      connections := connections + [returned];
      r := Ok(true);
    }
  }

  /** How the part of a request between taking and returning the connection ends. */
  datatype Work = Done | ThrowsSqlException | ThrowsOther

  /**
   Processes a request: takes a connection, closes it on an SQL exception, and returns it in any case. Afterwards
   the pool is as large as before, unless replacing the closed connection failed, and holds only open connections.
   */
  method ProcessRequest(pool: DbConnectionPool, work: Work, recreated: bool) returns (r: Result<bool, Error>)
    requires pool.Valid()
    modifies pool, pool.connections
    ensures pool.Valid()
    ensures r.Ok? <==> old(pool.connections) != [] && work.Done?
    ensures r.Err? ==> r.error != PoolException
    ensures |pool.connections|
         == if old(pool.connections) != [] && work.ThrowsSqlException? && !recreated then |old(pool.connections)| - 1
            else |old(pool.connections)|
    ensures old(pool.connections) != [] && !work.ThrowsSqlException? ==>
              pool.connections == old(pool.connections)[1..] + [old(pool.connections)[0]]
  {
    var connection := pool.GetConnection();
    if connection.Err? {
      return Err(connection.error);
    }
    if work.ThrowsSqlException? {
      connection.value.Close();
    }
    var returned := pool.ReturnConnection(connection.value, recreated);
    if returned.Err? {
      return Err(returned.error);
    }
    r := if work.Done? then Ok(true) else Err(MlmqException);
  }
}
