/**
 The message table and its two-statement dequeue: pick a row that matches the query, then delete it by id and fail
 unless exactly one row went. Any number of workers do so at the same time, and no row is locked in between.
 */
module MessageStore {
  import opened Wrappers

  datatype Row = Row(id: nat, queue: nat, sender: nat, content: seq<int>, prio: int, context: Option<int>)

  /** Absent parts do not restrict. */
  datatype Query = Query(queue: Option<nat>, sender: Option<nat>, context: Option<int>)

  predicate Matches(q: Query, row: Row) {
    && (q.queue.Some? ==> row.queue == q.queue.value)
    && (q.sender.Some? ==> row.sender == q.sender.value)
    && (q.context.Some? ==> row.context == q.context)
  }

  /** A query without parts matches everything; each part that is added keeps the rows that agree in it. */
  lemma PartsRestrict(q: Query, row: Row, queue: nat, sender: nat, context: int)
    ensures Matches(Query(None, None, None), row)
    ensures q.queue.None? ==> (Matches(q.(queue := Some(queue)), row) <==> Matches(q, row) && row.queue == queue)
    ensures q.sender.None? ==> (Matches(q.(sender := Some(sender)), row) <==> Matches(q, row) && row.sender == sender)
    ensures q.context.None? ==>
              (Matches(q.(context := Some(context)), row) <==> Matches(q, row) && row.context == Some(context))
  {
  }

  // ---- interleaved workers -----------------------------------------------------------------------

  datatype Worker = Free | Peeked(query: Query, row: Row)

  /** A row that has been deleted, and the query that it was returned for, if any. */
  datatype Deletion = Deletion(row: Row, returnedFor: Option<Query>)

  /** The table, everything ever inserted, the deletions in their order, and the workers. */
  datatype State = State(rows: map<nat, Row>, inserted: map<nat, Row>, deleted: seq<Deletion>, workers: seq<Worker>)

  /**
   Insert: a row with a fresh id. Peek: any row that matches. Delete: by the id peeked; the commit can fail
   afterwards, with the deletion done or undone. Remove: a row goes for another reason, with its queue say.
   */
  datatype Step =
    | Insert(row: Row)
    | Peek(worker: nat, query: Query, id: nat)
    | Delete(worker: nat)
    | DeleteUncommitted(worker: nat, undone: bool)
    | Abandon(worker: nat)
    | Remove(id: nat)

  predicate Enabled(s: State, step: Step) {
    match step
    case Insert(row) => row.id !in s.inserted
    case Peek(w, query, id) => w < |s.workers| && s.workers[w].Free? && id in s.rows && Matches(query, s.rows[id])
    case Delete(w) => w < |s.workers| && s.workers[w].Peeked?
    case DeleteUncommitted(w, _) => w < |s.workers| && s.workers[w].Peeked?
    case Abandon(w) => w < |s.workers| && s.workers[w].Peeked?
    case Remove(id) => id in s.rows
  }

  /** The delete count is 1 if the row is still there, and 0 otherwise. */
  function DeleteCount(s: State, w: nat): nat
    requires w < |s.workers| && s.workers[w].Peeked?
  {
    if s.workers[w].row.id in s.rows then 1 else 0
  }

  function Next(s: State, step: Step): State
    requires Enabled(s, step)
  {
    match step
    case Insert(row) => s.(rows := s.rows[row.id := row], inserted := s.inserted[row.id := row])
    case Peek(w, query, id) => s.(workers := s.workers[w := Peeked(query, s.rows[id])])
    case Delete(w) =>
      var free := s.(workers := s.workers[w := Free]);
      if DeleteCount(s, w) != 1 then free
      else Gone(free, s.workers[w].row.id, Deletion(s.workers[w].row, Some(s.workers[w].query)))
    case DeleteUncommitted(w, undone) =>
      var free := s.(workers := s.workers[w := Free]);
      if DeleteCount(s, w) != 1 || undone then free
      else Gone(free, s.workers[w].row.id, Deletion(s.workers[w].row, None))
    case Abandon(w) => s.(workers := s.workers[w := Free])
    case Remove(id) => Gone(s, id, Deletion(s.rows[id], None))
  }

  function Gone(s: State, id: nat, d: Deletion): State {
    s.(rows := s.rows - {id}, deleted := s.deleted + [d])
  }

  predicate Leads(steps: seq<Step>, start: State, s: State)
    decreases |steps|
  {
    if steps == [] then s == start
    else Enabled(start, steps[0]) && Leads(steps[1..], Next(start, steps[0]), s)
  }

  /** An empty table and free workers. */
  function Initial(workers: nat): State {
    State(map[], map[], [], seq(workers, _ => Free))
  }

  ghost predicate Reachable(s: State) {
    exists steps, workers :: Leads(steps, Initial(workers), s)
  }

  ghost predicate Inserted(s: State, row: Row) {
    row.id in s.inserted && s.inserted[row.id] == row
  }

  ghost predicate Inv(s: State) {
    && (forall id <- s.rows :: s.rows[id].id == id && Inserted(s, s.rows[id]))
    && (forall i :: 0 <= i < |s.deleted| ==> Inserted(s, s.deleted[i].row) && s.deleted[i].row.id !in s.rows)
    && (forall i, j :: 0 <= i < j < |s.deleted| ==> s.deleted[i].row.id != s.deleted[j].row.id)
    && (forall i :: 0 <= i < |s.deleted| && s.deleted[i].returnedFor.Some?
                    ==> Matches(s.deleted[i].returnedFor.value, s.deleted[i].row))
    && (forall w :: 0 <= w < |s.workers| && s.workers[w].Peeked?
                    ==> Inserted(s, s.workers[w].row) && Matches(s.workers[w].query, s.workers[w].row))
    && |s.inserted| == |s.rows| + |s.deleted|
  }

  lemma GoneKeeps(s: State, id: nat, d: Deletion)
    requires Inv(s) && id in s.rows && d.row == s.rows[id]
    requires d.returnedFor.Some? ==> Matches(d.returnedFor.value, d.row)
    ensures Inv(Gone(s, id, d))
  {
    hide Matches;
    var t := Gone(s, id, d);
    assert s.rows == t.rows[id := s.rows[id]];
    assert |s.rows| == |t.rows| + 1;
  }

  lemma StepKeeps(s: State, step: Step)
    requires Inv(s) && Enabled(s, step)
    ensures Inv(Next(s, step))
  {
    hide Matches;
    match step
    case Insert(row) => InsertKeeps(s, row);
    case Peek(w, query, id) => PeekKeeps(s, w, query, id);
    case Delete(w) =>
      FreeKeeps(s, w);
      if DeleteCount(s, w) == 1 {
        GoneKeeps(s.(workers := s.workers[w := Free]), s.workers[w].row.id,
                  Deletion(s.workers[w].row, Some(s.workers[w].query)));
      }
    case DeleteUncommitted(w, undone) =>
      FreeKeeps(s, w);
      if DeleteCount(s, w) == 1 && !undone {
        GoneKeeps(s.(workers := s.workers[w := Free]), s.workers[w].row.id, Deletion(s.workers[w].row, None));
      }
    case Abandon(w) => FreeKeeps(s, w);
    case Remove(id) => GoneKeeps(s, id, Deletion(s.rows[id], None));
  }

  lemma InsertKeeps(s: State, row: Row)
    requires Inv(s) && Enabled(s, Insert(row))
    ensures Inv(Next(s, Insert(row)))
  {
    hide Matches;
  }

  lemma PeekKeeps(s: State, w: nat, query: Query, id: nat)
    requires Inv(s) && Enabled(s, Peek(w, query, id))
    ensures Inv(Next(s, Peek(w, query, id)))
  {
    hide Matches;
  }

  lemma FreeKeeps(s: State, w: nat)
    requires Inv(s) && w < |s.workers|
    ensures Inv(s.(workers := s.workers[w := Free]))
  {
    hide Matches;
  }

  lemma {:induction false} RunKeeps(steps: seq<Step>, start: State, s: State)
    requires Inv(start) && Leads(steps, start, s)
    ensures Inv(s)
    decreases |steps|
  {
    hide Inv, Enabled, Next;
    if steps != [] {
      StepKeeps(start, steps[0]);
      RunKeeps(steps[1..], Next(start, steps[0]), s);
    }
  }

  lemma ReachableInv(s: State)
    requires Reachable(s)
    ensures Inv(s)
  {
    hide Leads;
    var steps, workers :| Leads(steps, Initial(workers), s);
    RunKeeps(steps, Initial(workers), s);
  }

  /** No message is returned by two dequeues, however their statements interleave. */
  lemma AtMostOnce(s: State, i: nat, j: nat)
    requires Reachable(s) && i < |s.deleted| && j < |s.deleted|
    requires s.deleted[i].returnedFor.Some? && s.deleted[j].returnedFor.Some?
    requires s.deleted[i].row.id == s.deleted[j].row.id
    ensures i == j
  {
    hide Reachable;
    ReachableInv(s);
  }

  /** A returned message is one that was inserted, unchanged, it matches the query, and it is no longer stored. */
  lemma ReturnedIsInserted(s: State, i: nat)
    requires Reachable(s) && i < |s.deleted| && s.deleted[i].returnedFor.Some?
    ensures var d := s.deleted[i];
      Inserted(s, d.row) && Matches(d.returnedFor.value, d.row) && d.row.id !in s.rows
  {
    hide Reachable, Matches;
    ReachableInv(s);
  }

  /** Conservation: what was inserted is stored or deleted, not both, and the numbers add up. */
  lemma InsertedIsStoredOrDeleted(s: State, id: nat)
    requires Reachable(s)
    ensures |s.inserted| == |s.rows| + |s.deleted|
    ensures id in s.inserted <==> (id in s.rows || exists i :: 0 <= i < |s.deleted| && s.deleted[i].row.id == id)
    ensures !(id in s.rows && exists i :: 0 <= i < |s.deleted| && s.deleted[i].row.id == id)
  {
    hide Reachable, Inv;
    ReachableInv(s);
    var ids := DeletedIds(s.deleted);
    KeysAndDeleted(s);
    assert |s.rows.Keys + ids| == |s.rows.Keys| + |ids|;
    SameSize(s.rows.Keys + ids, s.inserted.Keys);
  }

  lemma KeysAndDeleted(s: State)
    requires Inv(s)
    ensures var ids := DeletedIds(s.deleted);
      s.rows.Keys !! ids && s.rows.Keys + ids <= s.inserted.Keys && |ids| == |s.deleted|
    ensures |s.inserted| == |s.rows| + |s.deleted|
  {
    hide Matches;
    DeletedIdsCounted(s.deleted);
  }

  /** The second statement returns the row that was picked if and only if that very row is still stored. */
  lemma ReturnedIffStored(s: State, w: nat)
    requires Reachable(s) && w < |s.workers| && s.workers[w].Peeked?
    ensures var t, p := Next(s, Delete(w)), s.workers[w];
      && (p.row in s.rows.Values <==> t.deleted == s.deleted + [Deletion(p.row, Some(p.query))])
      && (p.row in s.rows.Values ==> t.rows == s.rows - {p.row.id})
      && (p.row !in s.rows.Values ==> t.rows == s.rows && t.deleted == s.deleted)
  {
    hide Reachable, Matches;
    ReachableInv(s);
    var p := s.workers[w];
    if p.row.id in s.rows {
      assert s.rows[p.row.id] == p.row;
    }
  }

  /** Any stored message that matches can be dequeued by a free worker; what it gets is that message. */
  lemma MatchIsDequeued(s: State, w: nat, query: Query, id: nat)
    requires Reachable(s) && w < |s.workers| && s.workers[w].Free? && id in s.rows && Matches(query, s.rows[id])
    ensures var steps := [Peek(w, query, id), Delete(w)];
      Leads(steps, s, s.(rows := s.rows - {id}, deleted := s.deleted + [Deletion(s.rows[id], Some(query))]))
  {
    hide Reachable, Matches;
    ReachableInv(s);
    var peeked := Next(s, Peek(w, query, id));
    var t := s.(rows := s.rows - {id}, deleted := s.deleted + [Deletion(s.rows[id], Some(query))]);
    assert peeked.workers[w := Free] == s.workers;
    assert Next(peeked, Delete(w)) == t;
    var steps := [Peek(w, query, id), Delete(w)];
    assert Leads(steps[1..][1..], t, t);
    assert Leads(steps[1..], peeked, t);
  }

  ghost function DeletedIds(ds: seq<Deletion>): set<nat> {
    set i | 0 <= i < |ds| :: ds[i].row.id
  }

  lemma {:induction false} DeletedIdsCounted(ds: seq<Deletion>)
    requires forall i, j :: 0 <= i < j < |ds| ==> ds[i].row.id != ds[j].row.id
    ensures |DeletedIds(ds)| == |ds|
  {
    if ds != [] {
      var n := |ds| - 1;
      DeletedIdsCounted(ds[..n]);
      assert DeletedIds(ds) == DeletedIds(ds[..n]) + {ds[n].row.id};
      assert ds[n].row.id !in DeletedIds(ds[..n]);
    }
  }

  lemma {:induction false} SameSize<T>(a: set<T>, b: set<T>)
    requires a <= b && |a| == |b|
    ensures a == b
  {
    if a != {} {
      var x :| x in a;
      SameSize(a - {x}, b - {x});
    } else {
      assert b == {};
    }
  }

  // ---- the statements one worker executes --------------------------------------------------------

  datatype Error = SqlError | DeleteCountError(count: nat)

  /**
   The table has one row more for each of the first n queues, with the ids from first on: for that queue, with the
   given sender, content and priority, and without context. The other rows are as before.
   */
  ghost predicate Stored(before: map<nat, Row>, after: map<nat, Row>, first: nat, queueIds: seq<nat>, n: nat,
                         sender: nat, content: seq<int>, prio: int)
    requires n <= |queueIds|
  {
    && (forall id: nat :: id in after <==> id in before || first <= id < first + n)
    && (forall id <- before :: id < first && id in after && after[id] == before[id])
    && (forall i :: 0 <= i < n ==>
          first + i in after && after[first + i] == Row(first + i, queueIds[i], sender, content, prio, None))
  }

  lemma StoredNone(rows: map<nat, Row>, first: nat, queueIds: seq<nat>, sender: nat, content: seq<int>, prio: int)
    requires forall id <- rows :: id < first
    ensures Stored(rows, rows, first, queueIds, 0, sender, content, prio)
  {
  }

  lemma StoredOneMore(before: map<nat, Row>, after: map<nat, Row>, first: nat, queueIds: seq<nat>, n: nat,
                      sender: nat, content: seq<int>, prio: int)
    requires n < |queueIds| && Stored(before, after, first, queueIds, n, sender, content, prio)
    ensures var row := Row(first + n, queueIds[n], sender, content, prio, None);
      Stored(before, after[first + n := row], first, queueIds, n + 1, sender, content, prio)
  {
  }

  /** The table as its statements see it. */
  class MessageDao {
    var rows: map<nat, Row>
    var nextId: nat

    constructor ()
      ensures Valid() && rows == map[]
    {
      rows, nextId := map[], 0;
    }

    ghost predicate Valid()
      reads this
    {
      forall id <- rows :: id < nextId && rows[id].id == id
    }

    /** One message for each queue, without context. The statement may fail for one; those before it stay. */
    method InsertMessage(queueIds: seq<nat>, sender: nat, content: seq<int>, prio: int, failsAt: Option<nat>)
      returns (ok: bool)
      requires Valid()
      modifies this
      ensures Valid()
      ensures ok <==> failsAt.None? || failsAt.value >= |queueIds|
      ensures var n := if ok then |queueIds| else failsAt.value;
        Stored(old(rows), rows, old(nextId), queueIds, n, sender, content, prio)
    {
      hide Stored;
      ghost var before, first := rows, nextId;
      StoredNone(before, first, queueIds, sender, content, prio);
      var i := 0;
      while i < |queueIds|
        invariant i <= |queueIds| && nextId == first + i
        invariant failsAt.Some? ==> i <= failsAt.value
        invariant Stored(before, rows, first, queueIds, i, sender, content, prio)
        invariant Valid()
      {
        if failsAt == Some(i) {
          return false;
        }
        StoredOneMore(before, rows, first, queueIds, i, sender, content, prio);
        rows := rows[nextId := Row(nextId, queueIds[i], sender, content, prio, None)];
        nextId := nextId + 1;
        i := i + 1;
      }
      ok := true;
    }

    /** Some matching row, or none if none matches. */
    method PeekMessage(query: Query) returns (message: Option<Row>)
      ensures message.Some? ==> message.value.id in rows && rows[message.value.id] == message.value
                                && Matches(query, message.value)
      ensures message.None? ==> forall id <- rows :: !Matches(query, rows[id])
      requires Valid()
    {
      if id :| id in rows && Matches(query, rows[id]) {
        message := Some(rows[id]);
      } else {
        message := None;
      }
    }

    method DeleteMessage(id: nat) returns (count: nat)
      modifies this`rows
      ensures rows == old(rows) - {id} && count == if id in old(rows) then 1 else 0
    {
      count := if id in rows then 1 else 0;
      rows := rows - {id};
    }

    /** Between the two statements, other workers may delete the rows with the ids in taken. */
    method DequeueMessage(query: Query, taken: set<nat>) returns (r: Result<Option<Row>, Error>)
      requires Valid()
      modifies this`rows
      ensures Valid()
      ensures r.Ok? && r.value.Some? ==>
                var m := r.value.value;
                m.id in old(rows) && m.id !in taken && old(rows)[m.id] == m && Matches(query, m)
                && rows == old(rows) - taken - {m.id}
      ensures r.Ok? && r.value.None? ==> rows == old(rows) && forall id <- rows :: !Matches(query, rows[id])
      ensures r.Err? ==> r.error == DeleteCountError(0) && rows == old(rows) - taken
                         && exists id <- taken :: id in old(rows) && Matches(query, old(rows)[id])
    {
      var message := PeekMessage(query);
      if message.None? {
        return Ok(None);
      }
      rows := rows - taken;
      var result := DeleteMessage(message.value.id);
      if result != 1 {
        assert message.value.id in taken;
        return Err(DeleteCountError(result));
      }
      return Ok(message);
    }
  }
}
