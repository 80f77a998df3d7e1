/** Who holds a packet on its way from the object pool through a queue and back: senders, the queue, the
    sending loop, and the copies that worker goroutines send. Any number of senders and workers. */
module PacketOwnership {

  type Packet = nat

  /** A sender's variable `pkg`; after a successful enqueue it still names the packet for a moment. */
  datatype SenderPc = Idle | Holding(p: Packet) | Handed(p: Packet) | Rejected(p: Packet)

  /** The sending loop: it waits, sends a batch, gives it back packet by packet, or has died of a panic. */
  datatype Consumer = Waiting | Sending(batch: seq<Packet>) | Returning(batch: seq<Packet>) | Dead(batch: seq<Packet>)

  datatype State = State(
    created: nat,
    pool: seq<Packet>,
    senders: map<nat, SenderPc>,
    queue: seq<Packet>,
    consumer: Consumer,
    copies: map<nat, seq<Packet>>)

  datatype Action =
    | Get(t: nat, i: nat)
    | SetFails(t: nat)
    | Enqueue(t: nat, accepted: bool)
    | Forget(t: nat)
    | Discard(t: nat)
    | Dequeue(n: nat)
    | Written(panicked: bool)
    | SubmitAll(id: nat, accepted: bool)
    | SubmitOne(id: nat, accepted: bool)
    | Return
    | WorkerReturns(id: nat)

  const NEW: State := State(0, [], map[], [], Waiting, map[])

  function At(s: State, t: nat): SenderPc {
    if t in s.senders then s.senders[t] else Idle
  }

  function Go(s: State, t: nat, pc: SenderPc): State {
    s.(senders := s.senders[t := pc])
  }

  function Put(s: State, p: Packet): State {
    s.(pool := s.pool + [p])
  }

  /** An object pool hands out what it has, or makes a new packet. */
  function Take(s: State, t: nat, i: nat): State {
    if i < |s.pool| then Go(s.(pool := s.pool[..i] + s.pool[i + 1..]), t, Holding(s.pool[i]))
    else Go(s.(created := s.created + 1), t, Holding(s.created))
  }

  /** `Send`. */
  function SenderStep(s: State, a: Action): State {
    match a
    case Get(t, i) => if At(s, t).Idle? then Take(s, t, i) else s
    case SetFails(t) => if At(s, t).Holding? then Go(Put(s, At(s, t).p), t, Idle) else s
    case Enqueue(t, accepted) =>
      if !At(s, t).Holding? then s
      else if accepted then Go(s.(queue := s.queue + [At(s, t).p]), t, Handed(At(s, t).p))
      else Go(s, t, Rejected(At(s, t).p))
    case Forget(t) => if At(s, t).Handed? then Go(s, t, Idle) else s
    case Discard(t) => if At(s, t).Rejected? then Go(Put(s, At(s, t).p), t, Idle) else s
    case _ => s
  }

  function Done(batch: seq<Packet>, more: Consumer): Consumer {
    if batch == [] then Waiting else more
  }

  /** The sending loops of workers, Redis and AMQP: write directly, or hand a copy of the batch or of one packet
      to a worker goroutine, whose pool may refuse. */
  function ConsumerStep(s: State, a: Action): State {
    match a
    case Dequeue(n) =>
      if s.consumer.Waiting? && 0 < n <= |s.queue| then s.(queue := s.queue[n..], consumer := Sending(s.queue[..n]))
          else s
    case Written(panicked) =>
      if !s.consumer.Sending? then s
      else if panicked then s.(consumer := Dead(s.consumer.batch)) else s.(consumer := Returning(s.consumer.batch))
    case SubmitAll(id, accepted) =>
      if !s.consumer.Sending? || id in s.copies then s
      else if accepted then s.(consumer := Waiting, copies := s.copies[id := s.consumer.batch])
      else s.(consumer := Returning(s.consumer.batch))
    case SubmitOne(id, accepted) =>
      if !s.consumer.Sending? || id in s.copies || s.consumer.batch == [] then s
      else
        var p, rest := s.consumer.batch[0], s.consumer.batch[1..];
        var next := s.(consumer := Done(rest, Sending(rest)));
        if accepted then next.(copies := s.copies[id := [p]]) else Put(next, p)
    case Return =>
      if !s.consumer.Returning? || s.consumer.batch == [] then s
      else
        var p, rest := s.consumer.batch[0], s.consumer.batch[1..];
        Put(s.(consumer := Done(rest, Returning(rest))), p)
    case WorkerReturns(id) =>
      if id !in s.copies then s
      else if s.copies[id] == [] then s.(copies := s.copies - {id})
      else Put(s.(copies := s.copies[id := s.copies[id][1..]]), s.copies[id][0])
    case _ => s
  }

  function Do(s: State, a: Action): State {
    match a
    case Get(_, _) => SenderStep(s, a)
    case SetFails(_) => SenderStep(s, a)
    case Enqueue(_, _) => SenderStep(s, a)
    case Forget(_) => SenderStep(s, a)
    case Discard(_) => SenderStep(s, a)
    case _ => ConsumerStep(s, a)
  }

  function After(acts: seq<Action>): State {
    if acts == [] then NEW else Do(After(acts[..|acts| - 1]), acts[|acts| - 1])
  }

  // ---- one owner each ----

  datatype Owner = ThePool | Sender(t: nat) | TheQueue | TheConsumer | Worker(id: nat)

  predicate Distinct(ps: seq<Packet>) {
    forall i, j :: 0 <= i < j < |ps| ==> ps[i] != ps[j]
  }

  predicate Owns(pc: SenderPc) {
    pc.Holding? || pc.Rejected?
  }

  function Batch(c: Consumer): seq<Packet> {
    if c.Waiting? then [] else c.batch
  }

  /** What a place holds. */
  function Held(s: State, o: Owner): seq<Packet> {
    match o
    case ThePool => s.pool
    case Sender(t) => if Owns(At(s, t)) then [At(s, t).p] else []
    case TheQueue => s.queue
    case TheConsumer => Batch(s.consumer)
    case Worker(id) => if id in s.copies then s.copies[id] else []
  }

  type Places = Owner -> seq<Packet>

  function PlacesOf(s: State): Places {
    (o: Owner) => Held(s, o)
  }

  /** `owner` says for every packet where it is, and it is there once and nowhere else. */
  ghost predicate Partition(held: Places, created: nat, owner: Packet -> Owner) {
    && (forall o :: Distinct(held(o)))
    && (forall o, p {:trigger p in held(o)} :: p in held(o) ==> p < created && owner(p) == o)
    && (forall p :: 0 <= p < created ==> p in held(owner(p)))
  }

  /** Every packet ever made is in exactly one place, once. */
  ghost predicate Owned(s: State) {
    exists owner :: Partition(PlacesOf(s), s.created, owner)
  }

  /** One packet changes places. */
  lemma Moves(held: Places, held': Places, created: nat, owner: Packet -> Owner, from: Owner, to: Owner, p: Packet)
    returns (owner': Packet -> Owner)
    requires Partition(held, created, owner) && from != to && p in held(from)
    requires Distinct(held'(from)) && forall q :: q in held'(from) <==> q in held(from) && q != p
    requires held'(to) == held(to) + [p]
    requires forall o :: o != from && o != to ==> held'(o) == held(o)
    ensures Partition(held', created, owner')
  {
    owner' := (q: Packet) => if q == p then to else owner(q);
    forall o
      ensures Distinct(held'(o))
    {
      if o == to { assert p !in held(to); }
    }
    forall o, q {:trigger q in held'(o)} | q in held'(o)
      ensures q < created && owner'(q) == o
    {
      if o == to && q != p { assert q in held(to); }
    }
  }

  /** All of a place's packets move to an empty place. */
  lemma AllMove(held: Places, held': Places, created: nat, owner: Packet -> Owner, from: Owner, to: Owner)
    returns (owner': Packet -> Owner)
    requires Partition(held, created, owner) && from != to && held(to) == [] && held'(from) == []
        && held'(to) == held(from)
    requires forall o :: o != from && o != to ==> held'(o) == held(o)
    ensures Partition(held', created, owner')
  {
    owner' := (q: Packet) => if owner(q) == from then to else owner(q);
    forall o
      ensures Distinct(held'(o))
    {
      assert Distinct(held(from)) && Distinct(held(o));
    }
    forall o, q {:trigger q in held'(o)} | q in held'(o)
      ensures q < created && owner'(q) == o
    {
      assert o == to ==> q in held(from);
    }
    forall p | 0 <= p < created
      ensures p in held'(owner'(p))
    {
      assert p in held(owner(p));
    }
  }

  /** The front of the queue moves to the empty loop. */
  lemma FrontMoves(held: Places, held': Places, created: nat, owner: Packet -> Owner, from: Owner, to: Owner, n: nat)
    returns (owner': Packet -> Owner)
    requires Partition(held, created, owner) && from != to && held(to) == [] && n <= |held(from)|
    requires held'(from) == held(from)[n..] && held'(to) == held(from)[..n]
    requires forall o :: o != from && o != to ==> held'(o) == held(o)
    ensures Partition(held', created, owner')
  {
    owner' := (q: Packet) => if q in held'(to) then to else owner(q);
    var f := held(from);
    assert Distinct(f);
    forall o
      ensures Distinct(held'(o))
    {
      assert Distinct(held(o));
    }
    forall o, q {:trigger q in held'(o)} | q in held'(o)
      ensures q < created && owner'(q) == o
    {
      if o == from || o == to {
        assert q in f;
      } else {
        assert q in held(o) && q !in f;
      }
    }
    forall p | 0 <= p < created
      ensures p in held'(owner'(p))
    {
      assert p in held(owner(p));
      assert f == f[..n] + f[n..];
    }
  }

  /** A new packet appears in an empty place. */
  lemma Appears(held: Places, held': Places, created: nat, owner: Packet -> Owner, to: Owner)
    returns (owner': Packet -> Owner)
    requires Partition(held, created, owner) && held(to) == [] && held'(to) == [created]
    requires forall o :: o != to ==> held'(o) == held(o)
    ensures Partition(held', created + 1, owner')
  {
    owner' := (q: Packet) => if q == created then to else owner(q);
    forall o
      ensures Distinct(held'(o))
    {
      assert Distinct(held(o));
    }
    forall p | 0 <= p < created + 1
      ensures p in held'(owner'(p))
    {
      assert p < created ==> p in held(owner(p));
    }
  }

  // ---- every step ----

  lemma OwnerOf(s: State) returns (owner: Packet -> Owner)
    requires Owned(s)
    ensures Partition(PlacesOf(s), s.created, owner)
  {
    owner :| Partition(PlacesOf(s), s.created, owner);
  }

  lemma WithoutOne(ps: seq<Packet>, i: nat)
    requires Distinct(ps) && i < |ps|
    ensures Distinct(ps[..i] + ps[i + 1..])
    ensures forall q :: q in ps[..i] + ps[i + 1..] <==> q in ps && q != ps[i]
  {
    var rest := ps[..i] + ps[i + 1..];
    forall q | q in ps && q != ps[i]
      ensures q in rest
    {
      var k :| 0 <= k < |ps| && ps[k] == q;
      if k < i { assert rest[k] == q; } else { assert rest[k - 1] == q; }
    }
  }

  lemma TakeKeeps(s: State, t: nat, i: nat)
    requires Owned(s) && At(s, t).Idle?
    ensures Owned(Take(s, t, i))
  {
    var owner := OwnerOf(s);
    var v := Take(s, t, i);
    forall o
      ensures o != Sender(t) && o != ThePool ==> Held(v, o) == Held(s, o)
    {
    }
    if i < |s.pool| {
      assert Distinct(PlacesOf(s)(ThePool));
      WithoutOne(s.pool, i);
      var owner' := Moves(PlacesOf(s), PlacesOf(v), s.created, owner, ThePool, Sender(t), s.pool[i]);
    } else {
      var owner' := Appears(PlacesOf(s), PlacesOf(v), s.created, owner, Sender(t));
    }
  }

  /** A sender gives its packet away. */
  lemma SenderGives(s: State, v: State, t: nat, to: Owner)
    requires Owned(s) && v.created == s.created && to != Sender(t) && Owns(At(s, t)) && !Owns(At(v, t))
    requires Held(v, to) == Held(s, to) + [At(s, t).p]
    requires forall o :: o != Sender(t) && o != to ==> Held(v, o) == Held(s, o)
    ensures Owned(v)
  {
    var owner := OwnerOf(s);
    assert At(s, t).p in PlacesOf(s)(Sender(t));
    var owner' := Moves(PlacesOf(s), PlacesOf(v), s.created, owner, Sender(t), to, At(s, t).p);
  }

  lemma PutKeeps(s: State, t: nat)
    requires Owned(s) && Owns(At(s, t))
    ensures Owned(Go(Put(s, At(s, t).p), t, Idle))
  {
    SenderGives(s, Go(Put(s, At(s, t).p), t, Idle), t, ThePool);
  }

  lemma EnqueueKeeps(s: State, t: nat, accepted: bool)
    requires Owned(s)
    ensures Owned(SenderStep(s, Enqueue(t, accepted)))
  {
    var v := SenderStep(s, Enqueue(t, accepted));
    if At(s, t).Holding? && accepted {
      SenderGives(s, v, t, TheQueue);
    } else if At(s, t).Holding? {
      SamePlaces(s, v);
    }
  }

  lemma SenderKeeps(s: State, a: Action)
    requires Owned(s)
    ensures Owned(SenderStep(s, a))
  {
    match a
    case Get(t, i) => if At(s, t).Idle? { TakeKeeps(s, t, i); }
    case SetFails(t) => if At(s, t).Holding? { PutKeeps(s, t); }
    case Enqueue(t, accepted) => EnqueueKeeps(s, t, accepted);
    case Forget(t) => if At(s, t).Handed? { SamePlaces(s, Go(s, t, Idle)); }
    case Discard(t) => if At(s, t).Rejected? { PutKeeps(s, t); }
    case _ =>
  }

  lemma SamePlaces(s: State, v: State)
    requires Owned(s) && v.created == s.created && forall o :: Held(v, o) == Held(s, o)
    ensures Owned(v)
  {
    var owner := OwnerOf(s);
    assert forall o :: PlacesOf(v)(o) == PlacesOf(s)(o);
    assert Partition(PlacesOf(v), v.created, owner);
  }

  /** The first packet of a place moves on. */
  lemma FirstMoves(s: State, v: State, from: Owner, to: Owner)
    requires Owned(s) && v.created == s.created && from != to && Held(s, from) != []
    requires Held(v, from) == Held(s, from)[1..] && Held(v, to) == Held(s, to) + [Held(s, from)[0]]
    requires forall o :: o != from && o != to ==> Held(v, o) == Held(s, o)
    ensures Owned(v)
  {
    var owner := OwnerOf(s);
    var ps := Held(s, from);
    assert Distinct(PlacesOf(s)(from));
    WithoutOne(ps, 0);
    assert ps[..0] + ps[1..] == ps[1..];
    assert ps[0] in PlacesOf(s)(from);
    var owner' := Moves(PlacesOf(s), PlacesOf(v), s.created, owner, from, to, ps[0]);
  }

  lemma DequeueKeeps(s: State, n: nat)
    requires Owned(s)
    ensures Owned(ConsumerStep(s, Dequeue(n)))
  {
    var owner := OwnerOf(s);
    var v := ConsumerStep(s, Dequeue(n));
    if v != s { var owner' := FrontMoves(PlacesOf(s), PlacesOf(v), s.created, owner, TheQueue, TheConsumer, n); }
  }

  lemma SubmitAllKeeps(s: State, id: nat, accepted: bool)
    requires Owned(s)
    ensures Owned(ConsumerStep(s, SubmitAll(id, accepted)))
  {
    var owner := OwnerOf(s);
    var v := ConsumerStep(s, SubmitAll(id, accepted));
    if v != s && accepted {
      var owner' := AllMove(PlacesOf(s), PlacesOf(v), s.created, owner, TheConsumer, Worker(id));
    } else if v != s {
      SamePlaces(s, v);
    }
  }

  lemma SubmitOneKeeps(s: State, id: nat, accepted: bool)
    requires Owned(s)
    ensures Owned(ConsumerStep(s, SubmitOne(id, accepted)))
  {
    var v := ConsumerStep(s, SubmitOne(id, accepted));
    if v != s { FirstMoves(s, v, TheConsumer, if accepted then Worker(id) else ThePool); }
  }

  lemma WorkerKeeps(s: State, id: nat)
    requires Owned(s)
    ensures Owned(ConsumerStep(s, WorkerReturns(id)))
  {
    var v := ConsumerStep(s, WorkerReturns(id));
    if id in s.copies && s.copies[id] == [] {
      SamePlaces(s, v);
    } else if id in s.copies {
      FirstMoves(s, v, Worker(id), ThePool);
    }
  }

  lemma ConsumerKeeps(s: State, a: Action)
    requires Owned(s)
    ensures Owned(ConsumerStep(s, a))
  {
    match a
    case Dequeue(n) => DequeueKeeps(s, n);
    case Written(_) => if s.consumer.Sending? { SamePlaces(s, ConsumerStep(s, a)); }
    case SubmitAll(id, accepted) => SubmitAllKeeps(s, id, accepted);
    case SubmitOne(id, accepted) => SubmitOneKeeps(s, id, accepted);
    case Return =>
      if s.consumer.Returning? && s.consumer.batch != [] { FirstMoves(s, ConsumerStep(s, a), TheConsumer, ThePool); }
    case WorkerReturns(id) => WorkerKeeps(s, id);
    case _ =>
  }

  lemma {:induction false} OwnedAlways(acts: seq<Action>)
    ensures Owned(After(acts))
  {
    if acts == [] {
      assert Partition(PlacesOf(NEW), 0, (q: Packet) => ThePool);
    } else {
      OwnedAlways(acts[..|acts| - 1]);
      SenderKeeps(After(acts[..|acts| - 1]), acts[|acts| - 1]);
      ConsumerKeeps(After(acts[..|acts| - 1]), acts[|acts| - 1]);
    }
  }

  /** A packet in the object pool is in it once, and nobody else holds it: not a sender, not the queue, not the
      loop, not a worker. So no packet is given back twice, or while it is still to be sent. */
  lemma PooledPacketsAreFree(acts: seq<Action>, i: nat, o: Owner)
    ensures var s := After(acts);
            i < |s.pool| ==>
              && (o != ThePool ==> s.pool[i] !in Held(s, o))
              && forall j :: 0 <= j < |s.pool| && j != i ==> s.pool[j] != s.pool[i]
  {
    OwnedAlways(acts);
    var s := After(acts);
    var owner := OwnerOf(s);
    assert Distinct(PlacesOf(s)(ThePool));
    if i < |s.pool| {
      assert s.pool[i] in PlacesOf(s)(ThePool);
      if s.pool[i] in PlacesOf(s)(o) { assert owner(s.pool[i]) == o; }
    }
  }

  /** When all senders and workers are done and the loop waits on an empty queue, every packet is back. A loop
      that died of a panic keeps its batch, and what is still queued, for ever. */
  lemma QuietMeansAllReturned(acts: seq<Action>, p: Packet)
    requires var s := After(acts); p < s.created && forall t :: !Owns(At(s, t))
    requires var s := After(acts); forall id :: id in s.copies ==> s.copies[id] == []
    ensures var s := After(acts); p in s.pool || p in s.queue || p in Batch(s.consumer)
    ensures var s := After(acts); s.queue == [] && s.consumer.Waiting? ==> p in s.pool
  {
    OwnedAlways(acts);
    var s := After(acts);
    var owner := OwnerOf(s);
    assert p in PlacesOf(s)(owner(p));
  }
}
