/**
 The broker's objects, updated in place as the reactor and the workers do. Every method is tied to the function
 on values that the runs in Broker are made of.
 */
module BrokerObjects {
  import opened Broker
  import opened Wrappers

  /** Pool of cleared buffers. The memory has an entry for every buffer this pool has allocated. */
  class ByteBufferPool {
    var pooledBuffers: seq<Buffer>
    var memory: seq<Content>

    constructor ()
      ensures pooledBuffers == [] && memory == []
    {
      pooledBuffers, memory := [], [];
    }

    method Release(buffer: Buffer)
      modifies this`pooledBuffers
      ensures pooledBuffers == old(pooledBuffers) + [buffer]
    {
      pooledBuffers := pooledBuffers + [buffer];
    }

    method Aquire() returns (buffer: Buffer)
      requires InMemory(pooledBuffers, memory)
      modifies this
      ensures (pooledBuffers, memory, buffer) == AquireFrom(old(pooledBuffers), old(memory))
      ensures buffer < |memory| && memory[buffer] == Blank
      ensures old(pooledBuffers) != [] ==>
                buffer == old(pooledBuffers)[0] && pooledBuffers == old(pooledBuffers)[1..]
                && |memory| == |old(memory)|
      ensures old(pooledBuffers) == [] ==> pooledBuffers == [] && memory == old(memory) + [Blank]
    {
      if pooledBuffers == [] {
        buffer := |memory|;
        memory := memory + [Blank];
      } else {
        buffer := pooledBuffers[0];
        pooledBuffers := pooledBuffers[1..];
        memory := memory[buffer := Blank];
      }
    }
  }

  class WorkerTask {
    const ask: Ask
    var requestBuffer: Option<Buffer>
    var responseBuffer: Option<Buffer>

    constructor (ask: Ask, requestMessageBuffer: Buffer)
      ensures View() == Task(ask, Some(requestMessageBuffer), None)
    {
      this.ask := ask;
      requestBuffer, responseBuffer := Some(requestMessageBuffer), None;
    }

    ghost function View(): Task
      reads this
    {
      Task(ask, requestBuffer, responseBuffer)
    }

    method GetAndRemoveRequestBuffer() returns (buffer: Option<Buffer>)
      modifies this`requestBuffer
      ensures buffer == old(requestBuffer) && requestBuffer == None
    {
      buffer := requestBuffer;
      requestBuffer := None;
    }

    method GetAndRemoveResponseBuffer() returns (buffer: Option<Buffer>)
      modifies this`responseBuffer
      ensures buffer == old(responseBuffer) && responseBuffer == None
    {
      buffer := responseBuffer;
      responseBuffer := None;
    }

    method SetResponseBuffer(buffer: Buffer)
      modifies this`responseBuffer
      ensures responseBuffer == Some(buffer)
    {
      responseBuffer := Some(buffer);
    }

    method Close(pool: ByteBufferPool)
      modifies pool`pooledBuffers
      ensures pool.pooledBuffers == old(pool.pooledBuffers) + Returned(requestBuffer) + Returned(responseBuffer)
    {
      if requestBuffer.Some? {
        pool.Release(requestBuffer.value);
      }
      if responseBuffer.Some? {
        pool.Release(responseBuffer.value);
      }
    }
  }

  class ConnectedClient {
    var rxBuffer: Buffer
    var txBuffer: Option<Buffer>
    var writeInterest: bool
    /** Messages received so far, for telling them apart. */
    var heard: nat

    constructor (rx: Buffer, tx: Buffer)
      ensures View() == Client(rx, Some(tx), false, 0)
    {
      rxBuffer, txBuffer, writeInterest, heard := rx, Some(tx), false, 0;
    }

    ghost function View(): Client
      reads this
    {
      Client(rxBuffer, txBuffer, writeInterest, heard)
    }

    method Close(pool: ByteBufferPool)
      modifies pool`pooledBuffers
      ensures pool.pooledBuffers == old(pool.pooledBuffers) + [rxBuffer] + Returned(txBuffer)
    {
      pool.Release(rxBuffer);
      if txBuffer.Some? {
        pool.Release(txBuffer.value);
      }
    }

    method SwapRxBuffer(replacement: Buffer) returns (message: Buffer)
      modifies this`rxBuffer, this`heard
      ensures message == old(rxBuffer)
      ensures View() == old(View()).(rx := replacement, heard := old(heard) + 1)
    {
      message := rxBuffer;
      rxBuffer := replacement;
      heard := heard + 1;
    }

    method SetResponse(newTxBuffer: Buffer, pool: ByteBufferPool)
      modifies this`txBuffer, this`writeInterest, pool`pooledBuffers
      ensures View() == old(View()).(tx := Some(newTxBuffer), writing := true)
      ensures pool.pooledBuffers == old(pool.pooledBuffers) + Returned(old(txBuffer))
    {
      if txBuffer.Some? {
        pool.Release(txBuffer.value);
      }
      txBuffer := Some(newTxBuffer);
      writeInterest := true;
    }

    /** After a write: gives the buffer back when nothing of it is left to send. */
    method AfterWrite(hasRemaining: bool, pool: ByteBufferPool) returns (done: bool)
      requires txBuffer.Some?
      modifies this`txBuffer, this`writeInterest, pool`pooledBuffers
      ensures done == !hasRemaining
      ensures done ==> View() == old(View()).(tx := None, writing := false)
                       && pool.pooledBuffers == old(pool.pooledBuffers) + [old(txBuffer).value]
      ensures !done ==> View() == old(View()) && pool.pooledBuffers == old(pool.pooledBuffers)
    {
      if !hasRemaining {
        writeInterest := false;
        pool.Release(txBuffer.value);
        txBuffer := None;
        return true;
      }
      return false;
    }
  }

  /** A bounded queue of tasks; adding to a full one fails. */
  class TaskQueue {
    var tasks: seq<WorkerTask>
    const room: nat

    constructor (room: nat)
      ensures tasks == [] && this.room == room
    {
      tasks := [];
      this.room := room;
    }

    method Enqueue(task: WorkerTask) returns (success: bool)
      modifies this
      ensures success == (|old(tasks)| < room)
      ensures tasks == if success then old(tasks) + [task] else old(tasks)
    {
      success := |tasks| < room;
      if success {
        tasks := tasks + [task];
      }
    }

    method Dequeue() returns (task: WorkerTask?)
      modifies this
      ensures old(tasks) == [] ==> task == null && tasks == []
      ensures old(tasks) != [] ==> task == old(tasks)[0] && tasks == old(tasks)[1..]
    {
      if tasks == [] {
        return null;
      }
      task := tasks[0];
      tasks := tasks[1..];
    }
  }

  ghost function TaskViews(ts: seq<WorkerTask>): (r: seq<Task>)
    reads ts
    ensures |r| == |ts|
  {
    seq(|ts|, i requires 0 <= i < |ts| reads ts => ts[i].View())
  }

  ghost function ClientViews(cs: map<nat, ConnectedClient>): (r: map<nat, Client>)
    reads cs.Values
    ensures r.Keys == cs.Keys
  {
    map h <- cs :: cs[h].View()
  }

  lemma ClientViewsSet(cs: map<nat, ConnectedClient>, h: nat, c: ConnectedClient)
    ensures ClientViews(cs[h := c]) == ClientViews(cs)[h := c.View()]
  {
  }

  lemma ClientViewAt(cs: map<nat, ConnectedClient>, h: nat)
    requires h in cs
    ensures h in ClientViews(cs) && ClientViews(cs)[h] == cs[h].View()
  {
  }

  lemma TaskViewsAppend(ts: seq<WorkerTask>, t: WorkerTask)
    ensures TaskViews(ts + [t]) == TaskViews(ts) + [t.View()]
  {
  }

  lemma ReadFields(n: Net, h: nat)
    requires PoolOk(n) && h in n.clients && n.clients[h].rx < |n.content|
    ensures var c := n.clients[h];
      var (pool, content, rx) := AquireFrom(n.pool, n.content[c.rx := Message(Ask(h, c.heard))]);
      NetReadMessage(n, h) == n.(
        pool := pool, content := content, clients := n.clients[h := c.(rx := rx, heard := c.heard + 1)],
        requests := n.requests
          + if |n.requests| < n.requestRoom then [Task(Ask(h, c.heard), Some(c.rx), None)] else [])
  {
    hide AquireFrom;
  }

  lemma AcceptFields(n: Net)
    requires PoolOk(n)
    ensures var (pool1, content1, rx) := AquireFrom(n.pool, n.content);
      var (pool2, content2, tx) := AquireFrom(pool1, content1);
      NetAccept(n) == n.(pool := pool2, content := content2, counter := n.counter + 1,
                         clients := n.clients[n.counter + 1 := Client(rx, Some(tx), false, 0)])
  {
    hide AquireFrom;
  }

  ghost predicate DistinctClients(cs: map<nat, ConnectedClient>) {
    forall h, k :: h in cs && k in cs && h != k ==> cs[h] != cs[k]
  }

  ghost predicate DistinctTasks(requests: seq<WorkerTask>, responses: seq<WorkerTask>) {
    && (forall i, j :: 0 <= i < j < |responses| ==> responses[i] != responses[j])
    && (forall t <- responses :: t !in requests)
  }

  lemma DistinctAppend(requests: seq<WorkerTask>, responses: seq<WorkerTask>, t: WorkerTask)
    requires DistinctTasks(requests, responses) && t !in responses
    ensures DistinctTasks(requests + [t], responses)
  {
  }

  lemma DistinctPop(requests: seq<WorkerTask>, responses: seq<WorkerTask>)
    requires DistinctTasks(requests, responses) && responses != []
    ensures DistinctTasks(requests, responses[1..])
    ensures responses[0] !in requests && responses[0] !in responses[1..]
  {
  }

  lemma TaskViewsPop(ts: seq<WorkerTask>)
    requires ts != []
    ensures TaskViews(ts[1..]) == TaskViews(ts)[1..] && ts[0].View() == TaskViews(ts)[0]
  {
  }

  ghost predicate AllAnswered(ts: seq<Task>) {
    forall i :: 0 <= i < |ts| ==> ts[i].response.Some?
  }

  lemma ClientChanged(cs: map<nat, ConnectedClient>, h: nat, before: map<nat, Client>)
    requires h in cs && before.Keys == cs.Keys && forall k <- cs :: k != h ==> before[k] == cs[k].View()
    ensures ClientViews(cs) == before[h := cs[h].View()]
  {
  }

  /** What one call that empties the response queue does: it stops at the first response for a gone client. */
  ghost function Drain(n: Net): Net
    requires AllAnswered(n.responses)
    decreases |n.responses|
  {
    if n.responses == [] then n
    else if n.responses[0].ask.handle in n.clients then Drain(NetDeliver(n))
    else NetDeliver(n)
  }

  lemma DrainOne(n: Net)
    requires AllAnswered(n.responses) && n.responses != []
    ensures n.responses[0].response.Some? && AllAnswered(NetDeliver(n).responses)
    ensures Drain(n) == if n.responses[0].ask.handle in n.clients then Drain(NetDeliver(n)) else NetDeliver(n)
  {
  }

  /**
   Where emptying the queue ends: behind the first response for a gone client, which is disposed of, or else at the
   end of the queue. All connections there are stay.
   */
  lemma {:induction false} DrainStops(n: Net) returns (k: nat)
    requires AllAnswered(n.responses)
    ensures k <= |n.responses| && Drain(n).responses == n.responses[k..] && Drain(n).clients.Keys == n.clients.Keys
    ensures forall i :: 0 <= i < k - 1 ==> n.responses[i].ask.handle in n.clients
    ensures k < |n.responses| ==> k > 0 && n.responses[k - 1].ask.handle !in n.clients
    decreases |n.responses|
  {
    if n.responses == [] {
      k := 0;
    } else if n.responses[0].ask.handle in n.clients {
      var later := DrainStops(NetDeliver(n));
      k := later + 1;
      assert forall i :: 0 < i < k ==> n.responses[i] == n.responses[1..][i - 1];
    } else {
      k := 1;
    }
  }

  lemma DrainNone(n: Net)
    requires AllAnswered(n.responses) && n.responses == []
    ensures Drain(n) == n
  {
  }

  class BrokerNetworkInterface {
    const requestQueue: TaskQueue
    const responseQueue: TaskQueue
    const byteBufferPool: ByteBufferPool
    var connectedClients: map<nat, ConnectedClient>
    var clientCounter: nat

    constructor (requestQueue: TaskQueue, responseQueueSize: nat)
      requires requestQueue.tasks == []
      ensures Valid() && this.requestQueue == requestQueue
      ensures View() == Initial(0, requestQueue.room, responseQueueSize).net
    {
      this.requestQueue := requestQueue;
      responseQueue := new TaskQueue(responseQueueSize);
      byteBufferPool := new ByteBufferPool();
      connectedClients, clientCounter := map[], 0;
      new;
      assert ClientViews(connectedClients) == map[];
    }

    ghost function View(): Net
      reads this, requestQueue, responseQueue, byteBufferPool, connectedClients.Values,
            requestQueue.tasks, responseQueue.tasks
    {
      Net(byteBufferPool.pooledBuffers, byteBufferPool.memory, ClientViews(connectedClients), clientCounter,
          TaskViews(requestQueue.tasks), requestQueue.room, TaskViews(responseQueue.tasks), responseQueue.room)
    }

    /** No two entries share an object. */
    ghost predicate Valid()
      reads this, requestQueue, responseQueue
    {
      && requestQueue != responseQueue
      && DistinctClients(connectedClients)
      && DistinctTasks(requestQueue.tasks, responseQueue.tasks)
    }

    /** A connection with two buffers. */
    method NewClient() returns (client: ConnectedClient)
      requires InMemory(byteBufferPool.pooledBuffers, byteBufferPool.memory)
      modifies byteBufferPool
      ensures fresh(client)
      ensures var (pool1, memory1, rx) := AquireFrom(old(byteBufferPool.pooledBuffers), old(byteBufferPool.memory));
        var (pool2, memory2, tx) := AquireFrom(pool1, memory1);
        byteBufferPool.pooledBuffers == pool2 && byteBufferPool.memory == memory2
        && client.View() == Client(rx, Some(tx), false, 0)
    {
      hide AquireFrom;
      var rx := byteBufferPool.Aquire();
      var tx := byteBufferPool.Aquire();
      client := new ConnectedClient(rx, tx);
    }

    method SelectAccept()
      requires Valid() && PoolOk(View())
      modifies this, byteBufferPool
      ensures Valid() && View() == NetAccept(old(View()))
    {
      hide AquireFrom, InMemory, DistinctTasks, TaskViews, ClientViews;
      AcceptFields(View());
      hide NetAccept;
      var client := NewClient();
      ClientViewsSet(connectedClients, clientCounter + 1, client);
      clientCounter, connectedClients := clientCounter + 1, connectedClients[clientCounter + 1 := client];
    }

    /** Takes a complete message out of a connection. */
    method TakeMessage(client: ConnectedClient, ask: Ask) returns (task: WorkerTask)
      requires InMemory(byteBufferPool.pooledBuffers, byteBufferPool.memory)
      requires client.rxBuffer < |byteBufferPool.memory|
      modifies byteBufferPool, client
      ensures fresh(task) && task.View() == Task(ask, Some(old(client.rxBuffer)), None)
      ensures var (pool1, memory1, rx) :=
          AquireFrom(old(byteBufferPool.pooledBuffers),
                     old(byteBufferPool.memory)[old(client.rxBuffer) := Message(ask)]);
        byteBufferPool.pooledBuffers == pool1 && byteBufferPool.memory == memory1
        && client.View() == old(client.View()).(rx := rx, heard := old(client.heard) + 1)
    {
      hide AquireFrom;
      byteBufferPool.memory := byteBufferPool.memory[client.rxBuffer := Message(ask)];
      var replacement := byteBufferPool.Aquire();
      var message := client.SwapRxBuffer(replacement);
      task := new WorkerTask(ask, message);
    }

    /** The same for the connection with that handle, as the map of all connections sees it. */
    method TakeMessageOf(handle: nat) returns (task: WorkerTask)
      requires DistinctClients(connectedClients) && handle in connectedClients
      requires InMemory(byteBufferPool.pooledBuffers, byteBufferPool.memory)
      requires connectedClients[handle].rxBuffer < |byteBufferPool.memory|
      modifies byteBufferPool, connectedClients[handle]
      ensures var c := old(connectedClients[handle].View());
        var ask := Ask(handle, c.heard);
        var (pool1, memory1, rx) :=
          AquireFrom(old(byteBufferPool.pooledBuffers), old(byteBufferPool.memory)[c.rx := Message(ask)]);
        && byteBufferPool.pooledBuffers == pool1 && byteBufferPool.memory == memory1
        && fresh(task) && task.View() == Task(ask, Some(c.rx), None)
        && ClientViews(connectedClients)
           == old(ClientViews(connectedClients))[handle := c.(rx := rx, heard := c.heard + 1)]
    {
      hide AquireFrom;
      ghost var clients := ClientViews(connectedClients);
      task := TakeMessage(connectedClients[handle], Ask(handle, connectedClients[handle].heard));
      ClientChanged(connectedClients, handle, clients);
    }

    /** A read that received a complete message. */
    method ReceiveMessage(handle: nat) returns (queued: bool)
      requires Valid() && PoolOk(View()) && handle in connectedClients
      requires connectedClients[handle].rxBuffer < |byteBufferPool.memory|
      modifies byteBufferPool, connectedClients[handle], requestQueue
      ensures Valid() && View() == NetReadMessage(old(View()), handle)
      ensures queued == (|old(requestQueue.tasks)| < requestQueue.room)
    {
      hide AquireFrom, Aquire, NetReadMessage, TaskViews, ClientViews, DistinctTasks, DistinctClients;
      ClientViewAt(connectedClients, handle);
      ReadFields(View(), handle);
      var task := TakeMessageOf(handle);
      TaskViewsAppend(requestQueue.tasks, task);
      DistinctAppend(requestQueue.tasks, responseQueue.tasks, task);
      queued := requestQueue.Enqueue(task);
    }

    /** A read that did not complete a message. */
    method ReceivePart(handle: nat)
      requires Valid() && handle in connectedClients
      requires connectedClients[handle].rxBuffer < |byteBufferPool.memory|
      modifies byteBufferPool
      ensures Valid() && View() == NetReadPart(old(View()), handle)
    {
      byteBufferPool.memory := byteBufferPool.memory[connectedClients[handle].rxBuffer := Blank];
    }

    /** One read event: the bytes may complete a message, and the peer may have closed. */
    method SelectRead(handle: nat, complete: bool, closed: bool)
      requires Valid() && PoolOk(View()) && handle in connectedClients
      requires connectedClients[handle].rxBuffer < |byteBufferPool.memory|
      modifies this, byteBufferPool, connectedClients[handle], requestQueue
      ensures Valid()
      ensures var received :=
          if complete then NetReadMessage(old(View()), handle) else NetReadPart(old(View()), handle);
        View() == if closed then NetDisconnect(received, handle) else received
    {
      hide NetReadMessage, NetReadPart, NetDisconnect, DistinctClients, DistinctTasks, TaskViews;
      if complete {
        var _ := ReceiveMessage(handle);
      } else {
        ReceivePart(handle);
      }
      if closed {
        DisconnectClient(handle);
      }
    }

    method SelectWrite(handle: nat, hasRemaining: bool)
      requires Valid() && handle in connectedClients && connectedClients[handle].txBuffer.Some?
      modifies byteBufferPool, connectedClients[handle]
      ensures Valid() && View() == if hasRemaining then old(View()) else NetWritten(old(View()), handle)
    {
      ghost var requests, responses := TaskViews(requestQueue.tasks), TaskViews(responseQueue.tasks);
      ghost var clients := ClientViews(connectedClients);
      var done := connectedClients[handle].AfterWrite(hasRemaining, byteBufferPool);
      assert ClientViews(connectedClients) == clients[handle := connectedClients[handle].View()];
      assert TaskViews(requestQueue.tasks) == requests;
      assert TaskViews(responseQueue.tasks) == responses;
    }

    method DisconnectClient(handle: nat)
      requires Valid() && handle in connectedClients
      modifies this, byteBufferPool
      ensures Valid() && View() == NetDisconnect(old(View()), handle)
    {
      ghost var requests, responses := TaskViews(requestQueue.tasks), TaskViews(responseQueue.tasks);
      ghost var clients := ClientViews(connectedClients);
      connectedClients[handle].Close(byteBufferPool);
      assert TaskViews(requestQueue.tasks) == requests;
      assert TaskViews(responseQueue.tasks) == responses;
      assert ClientViews(connectedClients - {handle}) == clients - {handle};
      connectedClients := connectedClients - {handle};
    }

    /** Moves the response from the worker task to the connection, and disposes of the former. */
    method HandOver(task: WorkerTask, client: ConnectedClient)
      requires task.responseBuffer.Some?
      modifies task, client, byteBufferPool`pooledBuffers
      ensures client.View() == old(client.View()).(tx := old(task.responseBuffer), writing := true)
      ensures byteBufferPool.pooledBuffers
           == old(byteBufferPool.pooledBuffers) + Returned(old(client.txBuffer)) + Returned(old(task.requestBuffer))
    {
      var buffer := task.GetAndRemoveResponseBuffer();
      client.SetResponse(buffer.value, byteBufferPool);
      task.Close(byteBufferPool);
    }

    /** The same for the connection with that handle, as the map of all connections sees it. */
    method HandOverTo(task: WorkerTask, handle: nat)
      requires DistinctClients(connectedClients) && handle in connectedClients
      requires task.responseBuffer.Some?
      modifies task, connectedClients[handle], byteBufferPool`pooledBuffers
      ensures ClientViews(connectedClients)
           == old(ClientViews(connectedClients))
              [handle := old(connectedClients[handle].View()).(tx := old(task.responseBuffer), writing := true)]
      ensures byteBufferPool.pooledBuffers
           == old(byteBufferPool.pooledBuffers) + Returned(old(connectedClients[handle].txBuffer))
              + Returned(old(task.requestBuffer))
    {
      ghost var clients := ClientViews(connectedClients);
      HandOver(task, connectedClients[handle]);
      ClientChanged(connectedClients, handle, clients);
    }

    /** One round of the loop below. */
    method DeliverOne() returns (task: WorkerTask?, known: bool)
      requires Valid()
      requires AllAnswered(TaskViews(responseQueue.tasks))
      modifies responseQueue, byteBufferPool, connectedClients.Values, responseQueue.tasks
      ensures Valid()
      ensures old(responseQueue.tasks) == [] ==> task == null && View() == old(View())
      ensures old(responseQueue.tasks) != [] ==>
                task != null && View() == NetDeliver(old(View()))
                && known == (old(View()).responses[0].ask.handle in connectedClients)
      ensures responseQueue.tasks == if old(responseQueue.tasks) == [] then [] else old(responseQueue.tasks)[1..]
    {
      hide DistinctTasks, DistinctClients, TaskViews, ClientViews;
      known := false;
      if responseQueue.tasks == [] {
        return null, known;
      }
      DistinctPop(requestQueue.tasks, responseQueue.tasks);
      TaskViewsPop(responseQueue.tasks);
      task := responseQueue.Dequeue();
      var handle := task.ask.handle;
      known := handle in connectedClients;
      if known {
        ClientViewAt(connectedClients, handle);
        HandOverTo(task, handle);
      } else {
        task.Close(byteBufferPool);
      }
    }

    /** Empties the response queue, up to the first response for a client that has gone. */
    method SelectQueue()
      requires Valid()
      requires AllAnswered(TaskViews(responseQueue.tasks))
      modifies responseQueue, byteBufferPool, connectedClients.Values, responseQueue.tasks
      ensures Valid() && View() == Drain(old(View()))
    {
      hide DistinctTasks, DistinctClients, TaskViews, ClientViews, AllAnswered, Drain, NetDeliver;
      var known := true;
      ghost var k, all := 0, responseQueue.tasks;
      while known && responseQueue.tasks != []
        invariant Valid() && connectedClients == old(connectedClients)
        invariant 0 <= k <= |all| && responseQueue.tasks == all[k..]
        invariant AllAnswered(TaskViews(responseQueue.tasks))
        invariant Drain(old(View())) == if known then Drain(View()) else View()
        decreases |responseQueue.tasks|
      {
        assert forall t :: t in all[k..] ==> t in all;
        DrainOne(View());
        var task;
        task, known := DeliverOne();
        k := k + 1;
      }
      if known {
        DrainNone(View());
      }
    }
  }

  /** What processing a task does to buffers and responses. */
  ghost function AfterProcess(n: Net, t: Task, valid: bool, fits: bool): Net
    requires t.request.Some? && t.request.value < |n.content|
  {
    var b := t.request.value;
    var found := n.content[b];
    if !valid || !found.Message? then n
    else if !fits then n.(content := n.content[b := Blank])
    else
      var answered := n.(content := n.content[b := Reply(found.ask)]);
      if |n.responses| < n.responseRoom then answered.(responses := n.responses + [Task(t.ask, None, Some(b))])
      else answered
  }

  class Worker {
    const responseQueue: TaskQueue
    const byteBufferPool: ByteBufferPool

    constructor (responseQueue: TaskQueue, byteBufferPool: ByteBufferPool)
      ensures this.responseQueue == responseQueue && this.byteBufferPool == byteBufferPool
    {
      this.responseQueue, this.byteBufferPool := responseQueue, byteBufferPool;
    }

    ghost function View(): Net
      reads responseQueue, byteBufferPool, responseQueue.tasks
    {
      Net([], byteBufferPool.memory, map[], 0, [], 0, TaskViews(responseQueue.tasks), responseQueue.room)
    }

    /** Decodes the request, and answers into its buffer. An exception ends it, wherever it is thrown. */
    method Process(task: WorkerTask, valid: bool, fits: bool)
      requires task.requestBuffer.Some? && task.requestBuffer.value < |byteBufferPool.memory|
      requires task.responseBuffer.None? && task !in responseQueue.tasks
      modifies task, byteBufferPool`memory, responseQueue
      ensures View() == AfterProcess(old(View()), old(task.View()), valid, fits)
      ensures task.requestBuffer == None
      ensures var b := old(task.requestBuffer.value);
        var found, tasks := old(byteBufferPool.memory[task.requestBuffer.value]), old(responseQueue.tasks);
        && (valid && found.Message? && fits && |tasks| < responseQueue.room ==>
              && responseQueue.tasks == tasks + [task] && task.responseBuffer == Some(b)
              && byteBufferPool.memory == old(byteBufferPool.memory)[b := Reply(found.ask)])
        && (!(valid && found.Message? && fits && |tasks| < responseQueue.room) ==> responseQueue.tasks == tasks)
        && forall x :: 0 <= x < old(|byteBufferPool.memory|) && x != b ==>
             byteBufferPool.memory[x] == old(byteBufferPool.memory[x])
    {
      ghost var responses := TaskViews(responseQueue.tasks);
      var requestBuffer := task.GetAndRemoveRequestBuffer();
      var b := requestBuffer.value;
      var request := byteBufferPool.memory[b];
      if !valid || !request.Message? {
        assert TaskViews(responseQueue.tasks) == responses;
        return;
      }
      byteBufferPool.memory := byteBufferPool.memory[b := Blank];
      if !fits {
        assert TaskViews(responseQueue.tasks) == responses;
        return;
      }
      byteBufferPool.memory := byteBufferPool.memory[b := Reply(request.ask)];
      task.SetResponseBuffer(b);
      assert TaskViews(responseQueue.tasks) == responses;
      TaskViewsAppend(responseQueue.tasks, task);
      var _ := responseQueue.Enqueue(task);
    }
  }

  // ---- the methods take the steps of the runs ----------------------------------------------------

  /** A worker that processes its task takes the machine's steps, and ends up idle. */
  lemma ProcessTakesSteps(s: State, w: nat, valid: bool, fits: bool) returns (steps: seq<Step>, t: State)
    requires Enabled(s, Decode(w, valid)) && s.workers[w].task.response.None?
    ensures Leads(steps, s, t) && w < |t.workers| && t.workers[w] == Idle
    ensures t.net == AfterProcess(s.net, s.workers[w].task, valid, fits)
  {
    var s1 := Next(s, Decode(w, valid));
    if s1.workers[w].Idle? {
      steps, t := [Decode(w, valid)], s1;
      assert Leads(steps[1..], s1, t);
    } else {
      var s2 := Next(s1, Answer(w, fits));
      if s2.workers[w].Idle? {
        steps, t := [Decode(w, valid), Answer(w, fits)], s2;
        assert Leads(steps[1..][1..], s2, t);
        assert Leads(steps[1..], s1, t);
      } else {
        t := Next(s2, Post(w));
        steps := [Decode(w, valid), Answer(w, fits), Post(w)];
        assert Leads(steps[1..][1..][1..], t, t);
        assert Leads(steps[1..][1..], s2, t);
        assert Leads(steps[1..], s1, t);
      }
    }
  }

  /** Emptying the response queue is a run of deliveries. */
  lemma {:induction false} DrainTakesSteps(s: State) returns (steps: seq<Step>, t: State)
    requires AllAnswered(s.net.responses)
    ensures Leads(steps, s, t) && t.net == Drain(s.net)
    ensures forall step <- steps :: step == Deliver
    decreases |s.net.responses|
  {
    if s.net.responses == [] {
      steps, t := [], s;
    } else {
      var s1 := Next(s, Deliver);
      if s.net.responses[0].ask.handle in s.net.clients {
        var rest;
        rest, t := DrainTakesSteps(s1);
        steps := [Deliver] + rest;
        assert steps[1..] == rest;
      } else {
        steps, t := [Deliver], s1;
        assert Leads(steps[1..], s1, t);
      }
    }
  }
}
