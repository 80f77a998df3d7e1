/** The bounded multi-producer single-consumer ring as a transition system: one action per atomic
    load, store, compare-and-swap or channel operation, any number of producers and closers, one consumer.
    An action that is not enabled leaves the state as it is, so every list of actions is a schedule. */
module QueueProtocol {
  import opened RingIndex

  /** Where a producer is inside `Enqueue`, or (`once`) inside `TryEnqueue`. */
  datatype ProducerPc<T> =
    | LoadClosed(item: T, once: bool)
    | LoadHead(item: T, once: bool)
    | LoadSeq(item: T, once: bool, h: nat)
    | Cas(item: T, once: bool, h: nat)
    | WriteData(item: T, h: nat)
    | Publish(item: T, h: nat)
    | Notify(item: T, h: nat)
    | ReloadHead(item: T, h: nat)
    | Accepted(item: T, h: nat)
    | Rejected(item: T)
  {
    predicate Returned() {
      Accepted? || Rejected?
    }

    /** The producer won the compare-and-swap for position `p` in its current or last call. */
    predicate Claims(p: nat) {
      (WriteData? || Publish? || Notify? || Accepted?) && h == p
    }

    /** The producer owns position `p`: it won the compare-and-swap and has not published yet. */
    predicate Owns(p: nat) {
      (WriteData? || Publish?) && h == p
    }
  }

  /** Where the consumer is inside `Dequeue`; `batch` is what it has copied into `result` so far. */
  datatype ConsumerPc<T> =
    | Idle
    | LoadTail(limit: nat, spins: nat)
    | Scan(limit: nat, spins: nat, base: nat, batch: seq<T>)
    | ReadSlot(limit: nat, spins: nat, base: nat, batch: seq<T>)
    | ClearSlot(limit: nat, spins: nat, base: nat, batch: seq<T>)
    | TestClosed(limit: nat, spins: nat)
    | Wait(limit: nat, spins: nat)
    | RetestClosed(limit: nat, spins: nat)
    | LenTail(limit: nat, spins: nat)
    | LenHead(limit: nat, spins: nat, t: nat)
    | StoreTail(base: nat, batch: seq<T>)
    | Release(base: nat, batch: seq<T>, i: nat)

  /** Where a caller is inside `Close`. */
  datatype CloserPc = SwapClosed | NotifyClosed | Returned

  /** Shared memory, the position of every thread, and two records of the past: `log` holds the
      items in the order their compare-and-swap on `head` succeeded, `batches` what `Dequeue` returned. */
  datatype State<T> = State(
    capacity: nat,
    zero: T,
    head: nat,
    tail: nat,
    closed: bool,
    token: bool,
    seqs: seq<nat>,
    data: seq<T>,
    producers: map<nat, ProducerPc<T>>,
    closers: map<nat, CloserPc>,
    consumer: ConsumerPc<T>,
    log: seq<T>,
    batches: seq<seq<T>>)

  datatype Action<T> =
    | CallEnqueue(p: nat, item: T)
    | CallTryEnqueue(p: nat, item: T)
    | ProducerStep(p: nat)
    | CallDequeue(limit: nat)
    | ConsumerStep
    | CallClose(c: nat)
    | CloserStep(c: nat)

  ghost predicate Shape<T>(s: State<T>) {
    && s.capacity >= 2
    && IsPow2(s.capacity)
    && |s.seqs| == |s.data| == s.capacity
  }

  function Slot<T>(s: State<T>, position: nat): (i: nat)
    requires Shape(s)
    ensures i < s.capacity
  {
    IndexIsModulo(position, s.capacity);
    Index(position, s.capacity)
  }

  /** The queue `New` returns: slot `i` carries sequence number `i`. */
  function Init<T>(capacity: nat, zero: T): State<T> {
    State(capacity, zero, 0, 0, false, false, seq(capacity, i => i), seq(capacity, i => zero),
          map[], map[], Idle, [], [])
  }

  function At<T>(s: State<T>, p: nat, pc: ProducerPc<T>): State<T> {
    s.(producers := s.producers[p := pc])
  }

  /** A failed attempt: `Enqueue` starts over, `TryEnqueue` gives up. */
  function Retry<T>(item: T, once: bool): ProducerPc<T> {
    if once then Rejected(item) else LoadClosed(item, once)
  }

  /** The control flow of `Enqueue` and `TryEnqueue`. */
  function NextPc<T>(s: State<T>, pc: ProducerPc<T>): ProducerPc<T>
    requires Shape(s)
  {
    match pc
    case LoadClosed(item, once) => if s.closed then Rejected(item) else LoadHead(item, once)
    case LoadHead(item, once) => LoadSeq(item, once, s.head)
    case LoadSeq(item, once, h) =>
      var sequence := s.seqs[Slot(s, h)];
      if sequence == h then Cas(item, once, h)
      else if sequence < h && !once then ReloadHead(item, h)
      else Retry(item, once)
    case Cas(item, once, h) => if s.head == h then WriteData(item, h) else Retry(item, once)
    case WriteData(item, h) => Publish(item, h)
    case Publish(item, h) => Notify(item, h)
    case Notify(item, h) => Accepted(item, h)
    case ReloadHead(item, h) => if s.head == h then Rejected(item) else LoadClosed(item, false)
    case Accepted(_, _) => pc
    case Rejected(_) => pc
  }

  /** One memory access of producer `p`: a won compare-and-swap, a data or sequence store, a token. */
  function StepProducer<T>(s: State<T>, p: nat): State<T>
    requires Shape(s)
  {
    if p !in s.producers then s else
    var pc := s.producers[p];
    var claims := pc.Cas? && s.head == pc.h;
    At(s, p, NextPc(s, pc)).(
      head := if claims then s.head + 1 else s.head,
      log := if claims then s.log + [pc.item] else s.log,
      data := if pc.WriteData? then s.data[Slot(s, pc.h) := pc.item] else s.data,
      seqs := if pc.Publish? then s.seqs[Slot(s, pc.h) := pc.h + 1] else s.seqs,
      token := s.token || pc.Notify?)
  }

  /** The control flow of `Dequeue`. */
  function NextConsumerPc<T>(s: State<T>): ConsumerPc<T>
    requires Shape(s)
  {
    match s.consumer
    case Idle => Idle
    case LoadTail(limit, spins) => Scan(limit, spins, s.tail, [])
    case Scan(limit, spins, base, batch) =>
      if |batch| < limit && s.seqs[Slot(s, base + |batch|)] == base + |batch| + 1
          then ReadSlot(limit, spins, base, batch)
      else if |batch| == 0 then TestClosed(limit, spins)
      else StoreTail(base, batch)
    case ReadSlot(limit, spins, base, batch) => ClearSlot(limit, spins, base, batch + [s.data[Slot(s, base + |batch|)]])
    case ClearSlot(limit, spins, base, batch) => Scan(limit, spins, base, batch)
    case TestClosed(limit, spins) =>
      if s.closed then RetestClosed(limit, spins)
      else if spins < 3 then LoadTail(limit, spins + 1)
      else Wait(limit, spins)
    case Wait(limit, spins) => if s.token then RetestClosed(limit, spins) else s.consumer
    case RetestClosed(limit, spins) => if s.closed then LenTail(limit, spins) else LoadTail(limit, spins)
    case LenTail(limit, spins) => LenHead(limit, spins, s.tail)
    case LenHead(limit, spins, t) => if s.head > t then LoadTail(limit, spins) else Idle
    case StoreTail(base, batch) => Release(base, batch, 0)
    case Release(base, batch, i) => if i + 1 < |batch| then Release(base, batch, i + 1) else Idle
  }

  /** The slot a `ClearSlot` empties or a `Release` hands back. */
  function ConsumerSlot<T>(s: State<T>): (i: nat)
    requires Shape(s)
    ensures i < s.capacity
  {
    match s.consumer
    case ClearSlot(_, _, base, batch) => Slot(s, if |batch| > 0 then base + |batch| - 1 else base)
    case Release(base, _, i) => Slot(s, base + i)
    case _ => 0
  }

  /** One memory access of the consumer; finishing `Dequeue` records what it returned. */
  function StepConsumer<T>(s: State<T>): State<T>
    requires Shape(s)
  {
    var c := s.consumer;
    s.(consumer := NextConsumerPc(s),
       tail := if c.StoreTail? then c.base + |c.batch| else s.tail,
       token := s.token && !c.Wait?,
       data := if c.ClearSlot? then s.data[ConsumerSlot(s) := s.zero] else s.data,
       seqs := if c.Release? then s.seqs[ConsumerSlot(s) := c.base + c.i + s.capacity] else s.seqs,
       batches := if c.LenHead? && s.head <= c.t then s.batches + [[]]
                  else if c.Release? && c.i + 1 >= |c.batch| then s.batches + [c.batch]
                  else s.batches)
  }

  function StepCloser<T>(s: State<T>, c: nat): State<T> {
    if c !in s.closers then s else
    match s.closers[c]
    case SwapClosed =>
      if s.closed then s.(closers := s.closers[c := Returned])
      else s.(closed := true, closers := s.closers[c := NotifyClosed])
    case NotifyClosed =>
      s.(token := true, closers := s.closers[c := Returned])
    case Returned => s
  }

  predicate ProducerFree<T>(s: State<T>, p: nat) {
    p in s.producers ==> s.producers[p].Returned()
  }

  /** One action. `Dequeue` of an empty result slice panics before it touches the queue. */
  function Do<T>(s: State<T>, a: Action<T>): State<T>
    requires Shape(s)
  {
    match a
    case CallEnqueue(p, item) => if ProducerFree(s, p) then At(s, p, LoadClosed(item, false)) else s
    case CallTryEnqueue(p, item) => if ProducerFree(s, p) then At(s, p, LoadClosed(item, true)) else s
    case ProducerStep(p) => StepProducer(s, p)
    case CallDequeue(limit) => if s.consumer.Idle? && limit > 0 then s.(consumer := LoadTail(limit, 0)) else s
    case ConsumerStep => StepConsumer(s)
    case CallClose(c) =>
      if c in s.closers && !s.closers[c].Returned? then s
      else s.(closers := s.closers[c := SwapClosed])
    case CloserStep(c) => StepCloser(s, c)
  }

  lemma ShapeKept<T>(s: State<T>, a: Action<T>)
    requires Shape(s)
    ensures Shape(Do(s, a)) && Do(s, a).capacity == s.capacity
  {
  }

  /** The state after a schedule. */
  function After<T>(s: State<T>, schedule: seq<Action<T>>): (r: State<T>)
    requires Shape(s)
    ensures Shape(r) && r.capacity == s.capacity
  {
    if schedule == [] then s
    else
      var before := After(s, schedule[..|schedule| - 1]);
      ShapeKept(before, schedule[|schedule| - 1]);
      Do(before, schedule[|schedule| - 1])
  }

  /** Everything `Dequeue` has handed out, in order. */
  function Flatten<T>(batches: seq<seq<T>>): seq<T> {
    if batches == [] then [] else Flatten(batches[..|batches| - 1]) + batches[|batches| - 1]
  }
}
