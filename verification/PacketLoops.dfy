/** The sending loops of the Redis and AMQP queues on their arrays: packets are copied out of the batch array,
    the array is cleared, and copies or single packets go to worker goroutines, which give them back. */
module PacketLoops {
  import opened PacketOwnership

  datatype Slot = Empty | Full(p: Packet)

  class SendLoop {
    /** The array that `Dequeue` fills. */
    const packets: array<Slot>
    /** The object pool. */
    var pool: seq<Packet>
    /** What worker goroutines hold: `packetsCopy`, or a single packet. */
    var copies: map<nat, array<Packet>>

    /** The array holds exactly the packets of the batch, and every other entry is empty. */
    ghost predicate Holds(batch: seq<Packet>)
      reads this, packets
    {
      && |batch| <= packets.Length
      && (forall i :: 0 <= i < |batch| ==> packets[i] == Full(batch[i]))
      && (forall i :: |batch| <= i < packets.Length ==> packets[i] == Empty)
    }

    /** The arrays and the pool are what the state says. */
    ghost predicate Shows(s: State)
      reads this, packets, copies.Values
    {
      && pool == s.pool && Holds(Batch(s.consumer))
      && copies.Keys == s.copies.Keys && forall id :: id in copies ==> copies[id][..] == s.copies[id]
    }

    constructor (dequeueSize: nat)
      ensures Shows(NEW) && packets.Length == dequeueSize && fresh(packets)
    {
      packets := new Slot[dequeueSize](_ => Empty);
      pool, copies := [], map[];
    }

    /** `Dequeue` and the clearing copy: afterwards no entry of the batch array names a packet any more. */
    method CopyOut(count: nat, ghost batch: seq<Packet>) returns (copy: array<Packet>)
      requires Holds(batch) && count == |batch|
      modifies packets
      ensures fresh(copy) && copy[..] == batch && Holds([])
    {
      copy := new Packet[count];
      for i := 0 to count
        invariant copy[..i] == batch[..i]
        invariant forall j :: 0 <= j < i ==> packets[j] == Empty
        invariant forall j :: i <= j < count ==> packets[j] == Full(batch[j])
        invariant forall j :: count <= j < packets.Length ==> packets[j] == Empty
      {
        copy[i] := packets[i].p;
        packets[i] := Empty;
        assert batch[..i + 1] == batch[..i] + [batch[i]];
      }
      assert copy[..count] == copy[..] && batch[..count] == batch;
    }

    /** Gives every packet of a copy back, once and in order. */
    method PutAll(copy: array<Packet>)
      modifies this`pool
      ensures pool == old(pool) + copy[..]
    {
      for i := 0 to copy.Length
        invariant pool == old(pool) + copy[..i]
      {
        pool := pool + [copy[i]];
        assert copy[..i + 1] == copy[..i] + [copy[i]];
      }
      assert copy[..copy.Length] == copy[..];
    }

    /** One batch: a copy goes to a worker, or is given back at once when the worker pool refuses it. */
    method SubmitBatch(id: nat, count: nat, accepted: bool, ghost s: State)
      requires Shows(s) && s.consumer.Sending? && count == |s.consumer.batch| && id !in copies
      modifies this, packets
      ensures Shows(if accepted then ConsumerStep(s, PacketOwnership.SubmitAll(id, true)) else Returned(s))
    {
      var copy := CopyOut(count, s.consumer.batch);
      if accepted {
        copies := copies[id := copy];
      } else {
        PutAll(copy);
      }
    }

    /** A worker is done, with or without a panic: its deferred loop gives its copy back. */
    method WorkerDone(id: nat, ghost s: State)
      requires Shows(s) && id in copies
      modifies this
      ensures Shows(WorkerReturned(s, id))
    {
      PutAll(copies[id]);
      copies := copies - {id};
    }

    /** One packet of the loop that sends packet by packet; its entry is cleared after it was handed over. */
    method SubmitSingle(id: nat, i: nat, accepted: bool, ghost s: State)
      requires Single(i, s) && id !in copies && Batch(s.consumer) != []
      modifies this, packets
      ensures Single(i + 1, ConsumerStep(s, PacketOwnership.SubmitOne(id, accepted)))
      ensures Batch(ConsumerStep(s, PacketOwnership.SubmitOne(id, accepted)).consumer) == Batch(s.consumer)[1..]
      ensures copies.Keys <= old(copies.Keys) + {id}
    {
      assert packets[i + 0] == Full(Batch(s.consumer)[0]);
      var pkg := packets[i].p;
      if accepted {
        var copy := new Packet[1];
        copy[0] := pkg;
        copies := copies[id := copy];
      } else {
        pool := pool + [pkg];
      }
      packets[i] := Empty;
    }

    lemma SingleBegins(s: State)
      requires Shows(s) && s.consumer.Sending?
      ensures Single(0, s)
    {
    }

    lemma SingleEnds(i: nat, s: State)
      requires Single(i, s) && Batch(s.consumer) == []
      ensures Shows(s)
    {
    }

    /** After `i` packets of the batch of `s`. */
    ghost predicate Progress(i: nat, s: State, id: nat, accepted: seq<bool>)
      requires i <= |accepted| == |Batch(s.consumer)|
      reads this, packets, copies.Values
    {
      Single(i, Singles(s, id, accepted, i)) && Batch(Singles(s, id, accepted, i).consumer) == Batch(s.consumer)[i..]
    }

    method NextSingle(id: nat, i: nat, accepted: seq<bool>, ghost s: State)
      requires i < |accepted| == |Batch(s.consumer)| && Progress(i, s, id, accepted) && id + i !in copies
      modifies this, packets
      ensures Progress(i + 1, s, id, accepted) && copies.Keys <= old(copies.Keys) + {id + i}
    {
      ghost var t := Singles(s, id, accepted, i);
      SubmitSingle(id + i, i, accepted[i], t);
      assert Batch(s.consumer)[i..][1..] == Batch(s.consumer)[i + 1..];
    }

    /** The whole loop that sends packet by packet; `accepted` is what the worker pool answers. */
    method SubmitSingles(id: nat, count: nat, accepted: seq<bool>, ghost s: State)
      requires Shows(s) && s.consumer.Sending? && count == |s.consumer.batch| == |accepted|
      requires forall i :: id <= i < id + count ==> i !in copies
      modifies this, packets
      ensures Shows(Singles(s, id, accepted, count))
    {
      SingleBegins(s);
      for i := 0 to count
        invariant Progress(i, s, id, accepted)
        invariant forall j :: id + i <= j < id + count ==> j !in copies
      {
        NextSingle(id, i, accepted, s);
      }
      SingleEnds(count, Singles(s, id, accepted, count));
    }

    /** The first `i` entries are cleared, and the rest of the batch follows. */
    ghost predicate Single(i: nat, s: State)
      reads this, packets, copies.Values
    {
      && pool == s.pool && i + |Batch(s.consumer)| <= packets.Length
      && (s.consumer.Sending? || s.consumer.Waiting?)
      && (forall j :: 0 <= j < |Batch(s.consumer)| ==> packets[i + j] == Full(Batch(s.consumer)[j]))
      && (forall j :: 0 <= j < i || i + |Batch(s.consumer)| <= j < packets.Length ==> packets[j] == Empty)
      && copies.Keys == s.copies.Keys && forall id :: id in copies ==> copies[id][..] == s.copies[id]
    }
  }

  /** The refused batch is back in the pool. */
  function Returned(s: State): State
    requires s.consumer.Sending?
  {
    s.(pool := s.pool + s.consumer.batch, consumer := Waiting)
  }

  function WorkerReturned(s: State, id: nat): State
    requires id in s.copies
  {
    s.(pool := s.pool + s.copies[id], copies := s.copies - {id})
  }

  /** The state after the first `n` packets of a batch went out one by one. */
  function Singles(s: State, id: nat, accepted: seq<bool>, n: nat): State
    requires n <= |accepted|
  {
    if n == 0 then s
    else ConsumerStep(Singles(s, id, accepted, n - 1), PacketOwnership.SubmitOne(id + n - 1, accepted[n - 1]))
  }

  function Repeat(s: State, a: Action, n: nat): State
    decreases n
  {
    if n == 0 then s else Repeat(ConsumerStep(s, a), a, n - 1)
  }

  lemma {:induction false} ReturnsOneByOne(s: State)
    requires s.consumer.Returning? && s.consumer.batch != []
    ensures Repeat(s, Return, |s.consumer.batch|) == s.(pool := s.pool + s.consumer.batch, consumer := Waiting)
    decreases |s.consumer.batch|
  {
    var batch, t := s.consumer.batch, ConsumerStep(s, Return);
    assert s.pool + batch == s.pool + [batch[0]] + batch[1..];
    if |batch| > 1 {
      ReturnsOneByOne(t);
    } else {
      assert Repeat(t, Return, 0) == t && batch[1..] == [] && s.pool + [batch[0]] + [] == s.pool + [batch[0]];
    }
  }

  /** Giving a refused batch back in one loop is what the single steps of the protocol do. */
  lemma ReturnedIsStepwise(s: State, id: nat)
    requires s.consumer.Sending? && s.consumer.batch != [] && id !in s.copies
    ensures Repeat(ConsumerStep(s, PacketOwnership.SubmitAll(id, false)), Return, |s.consumer.batch|) == Returned(s)
  {
    ReturnsOneByOne(ConsumerStep(s, PacketOwnership.SubmitAll(id, false)));
  }

  /** And so is a worker's deferred loop. */
  lemma {:induction false} WorkerReturnedIsStepwise(s: State, id: nat)
    requires id in s.copies
    ensures Repeat(s, WorkerReturns(id), |s.copies[id]| + 1) == WorkerReturned(s, id)
    decreases |s.copies[id]|
  {
    var copy, t := s.copies[id], ConsumerStep(s, WorkerReturns(id));
    if copy == [] {
      assert Repeat(t, WorkerReturns(id), 0) == t && s.pool + [] == s.pool;
    } else {
      WorkerReturnedIsStepwise(t, id);
      assert s.pool + copy == s.pool + [copy[0]] + copy[1..];
      assert t.copies - {id} == s.copies - {id};
    }
  }

  // ---- the way of a packet ----

  /** The packet that an object pool hands out, and the pool and the number of packets afterwards. */
  function Taken(s: State, i: nat): (Packet, seq<Packet>, nat) {
    if i < |s.pool| then (s.pool[i], s.pool[..i] + s.pool[i + 1..], s.created) else (s.created, s.pool, s.created + 1)
  }

  /** A packet that the queue accepts is at its end, and no longer with the sender or in the pool. */
  lemma SentIsQueued(s: State, t: nat, i: nat)
    requires At(s, t) == Idle
    ensures var (p, pool, created) := Taken(s, i);
            Do(Do(Do(s, Get(t, i)), Enqueue(t, true)), Forget(t))
              == s.(created := created, pool := pool, queue := s.queue + [p], senders := s.senders[t := Idle])
  {
    var p := Taken(s, i).0;
    assert s.senders[t := Holding(p)][t := Handed(p)][t := Idle] == s.senders[t := Idle];
  }

  /** A packet that the queue refuses, or that could not be filled, is back in the pool. */
  lemma RefusedIsReturned(s: State, t: nat, i: nat)
    requires At(s, t) == Idle
    ensures var (p, pool, created) := Taken(s, i);
            var v := s.(created := created, pool := pool + [p], senders := s.senders[t := Idle]);
            && Do(Do(Do(s, Get(t, i)), Enqueue(t, false)), Discard(t)) == v
            && Do(Do(s, Get(t, i)), SetFails(t)) == v
  {
    var p := Taken(s, i).0;
    assert s.senders[t := Holding(p)][t := Rejected(p)][t := Idle] == s.senders[t := Idle];
    assert s.senders[t := Holding(p)][t := Idle] == s.senders[t := Idle];
  }

  /** A dequeued batch comes back into the pool in the order of the queue, from the loop that has written it ... */
  lemma BatchReturns(s: State, n: nat)
    requires s.consumer.Waiting? && 0 < n <= |s.queue|
    ensures Repeat(Do(Do(s, Dequeue(n)), Written(false)), Return, n)
         == s.(queue := s.queue[n..], pool := s.pool + s.queue[..n])
  {
    ReturnsOneByOne(Do(Do(s, Dequeue(n)), Written(false)));
  }

  /** ... or from the worker that has sent its copy. */
  lemma CopyReturns(s: State, n: nat, id: nat)
    requires s.consumer.Waiting? && 0 < n <= |s.queue| && id !in s.copies
    ensures Repeat(Do(Do(s, Dequeue(n)), PacketOwnership.SubmitAll(id, true)), WorkerReturns(id), n + 1)
         == s.(queue := s.queue[n..], pool := s.pool + s.queue[..n])
  {
    var t := Do(Do(s, Dequeue(n)), PacketOwnership.SubmitAll(id, true));
    WorkerReturnedIsStepwise(t, id);
    assert t.copies - {id} == s.copies;
  }
}
