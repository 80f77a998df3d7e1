/** What every step of the ring protocol keeps. */
module QueueInvariant {
  import opened RingIndex
  import opened QueueProtocol

  /** Positions below this one have been handed back to the producers. */
  function Released<T>(s: State<T>): nat {
    if s.consumer.Release? then s.consumer.base + s.consumer.i else s.tail
  }

  /** Positions below this one have been copied out by the consumer. */
  function Copied<T>(s: State<T>): nat {
    match s.consumer
    case Scan(_, _, base, batch) => base + |batch|
    case ReadSlot(_, _, base, batch) => base + |batch|
    case ClearSlot(_, _, base, batch) => base + |batch|
    case StoreTail(base, batch) => base + |batch|
    case _ => s.tail
  }

  predicate Published<T>(s: State<T>, p: nat)
    requires Shape(s)
  {
    s.seqs[Slot(s, p)] == p + 1
  }

  predicate Unpublished<T>(s: State<T>, p: nat)
    requires Shape(s)
  {
    s.seqs[Slot(s, p)] == p
  }

  ghost predicate Owned<T>(s: State<T>, p: nat) {
    exists q :: q in s.producers && s.producers[q].Owns(p)
  }

  ghost predicate Counters<T>(s: State<T>) {
    && |s.log| == s.head
    && Released(s) <= s.tail <= Copied(s) <= s.head <= Released(s) + s.capacity
  }

  /** A slot shows position `p` as free or claimed (`p`), published (`p + 1`), and nothing else. */
  ghost predicate SlotOk<T>(s: State<T>, p: nat)
    requires Shape(s)
  {
    && (Published(s, p) || Unpublished(s, p))
    && (p < Copied(s) ==> Published(s, p))
    && (p >= s.head ==> Unpublished(s, p))
  }

  ghost predicate Slots<T>(s: State<T>)
    requires Shape(s)
  {
    forall p :: Released(s) <= p < Released(s) + s.capacity ==> SlotOk(s, p)
  }

  /** A published item that has not been copied out yet is still in its slot. */
  ghost predicate Stored<T>(s: State<T>)
    requires Shape(s) && |s.log| == s.head
  {
    forall p :: Copied(s) <= p < s.head && Published(s, p) ==> s.data[Slot(s, p)] == s.log[p]
  }

  ghost predicate ProducerOk<T>(s: State<T>, pc: ProducerPc<T>)
    requires Shape(s) && |s.log| == s.head
  {
    match pc
    case LoadClosed(_, _) => true
    case LoadHead(_, _) => true
    case LoadSeq(_, _, h) => h <= s.head
    case Cas(_, _, h) => h <= s.head && h < Released(s) + s.capacity
    case ReloadHead(_, h) => h <= s.head
    case WriteData(item, h) => Released(s) <= h < s.head && Unpublished(s, h) && s.log[h] == item
    case Publish(item, h) =>
      && Released(s) <= h < s.head
      && Unpublished(s, h)
      && s.log[h] == item
      && s.data[Slot(s, h)] == item
    case Notify(item, h) => h < s.head && s.log[h] == item
    case Accepted(item, h) => h < s.head && s.log[h] == item
    case Rejected(_) => true
  }

  ghost predicate Producers<T>(s: State<T>)
    requires Shape(s) && |s.log| == s.head
  {
    forall q :: q in s.producers ==> ProducerOk(s, s.producers[q])
  }

  /** No position is claimed twice. */
  ghost predicate SingleClaim<T>(s: State<T>) {
    forall q, r, p :: q in s.producers && r in s.producers && s.producers[q].Claims(p) && s.producers[r].Claims(p)
        ==> q == r
  }

  /** Every claimed position that is not published yet has a producer working on it. */
  ghost predicate NoOrphan<T>(s: State<T>)
    requires Shape(s)
  {
    forall p :: Released(s) <= p < s.head && Unpublished(s, p) ==> Owned(s, p)
  }

  ghost predicate Batch<T>(s: State<T>, limit: nat, base: nat, batch: seq<T>)
    requires |s.log| == s.head
  {
    && base == s.tail
    && |batch| <= limit
    && base + |batch| <= s.head
    && batch == s.log[base..base + |batch|]
  }

  ghost predicate ConsumerOk<T>(s: State<T>)
    requires Shape(s) && |s.log| == s.head
  {
    match s.consumer
    case Idle => true
    case LoadTail(limit, _) => limit > 0
    case Scan(limit, _, base, batch) => limit > 0 && Batch(s, limit, base, batch)
    case ReadSlot(limit, _, base, batch) =>
      Batch(s, limit, base, batch) && |batch| < limit && base + |batch| < s.head && Published(s, base + |batch|)
    case ClearSlot(limit, _, base, batch) => Batch(s, limit, base, batch) && |batch| > 0
    case TestClosed(limit, _) => limit > 0
    case Wait(limit, _) => limit > 0
    case RetestClosed(limit, _) => limit > 0
    case LenTail(limit, _) => limit > 0 && s.closed
    case LenHead(limit, _, t) => limit > 0 && s.closed && t == s.tail
    case StoreTail(base, batch) => |batch| > 0 && Batch(s, |batch|, base, batch)
    case Release(base, batch, i) =>
      && i < |batch|
      && s.tail == base + |batch| <= s.head
      && batch == s.log[base..base + |batch|]
      && |batch| <= s.capacity
  }

  /** No batch exceeds the capacity, and only a closed queue returns an empty one. */
  ghost predicate Batches<T>(s: State<T>) {
    forall i :: 0 <= i < |s.batches| ==> |s.batches[i]| <= s.capacity && (s.batches[i] == [] ==> s.closed)
  }

  /** What has been returned is the log up to the first position `Dequeue` has not returned. */
  ghost predicate Delivered<T>(s: State<T>)
    requires |s.log| == s.head
  {
    var n := if s.consumer.Release? then s.consumer.base else s.tail;
    n <= s.head && Flatten(s.batches) == s.log[..n]
  }

  /** Somebody is about to put a token into the notification channel for position `p`. */
  ghost predicate Notifying<T>(s: State<T>, p: nat) {
    exists q :: q in s.producers && s.producers[q].Notify? && s.producers[q].h == p
  }

  ghost predicate Closing<T>(s: State<T>) {
    exists c :: c in s.closers && s.closers[c] == NotifyClosed
  }

  /** The consumer is going to sleep, or sleeps. */
  predicate Sleepy<T>(s: State<T>) {
    s.consumer.TestClosed? || s.consumer.Wait?
  }

  /** A sleepy consumer whose slot became ready, or whose queue was closed, has or will get a token. */
  ghost predicate Wakeup<T>(s: State<T>)
    requires Shape(s)
  {
    && (Sleepy(s) && Published(s, s.tail) ==> s.token || Notifying(s, s.tail))
    && (s.consumer.Wait? && s.closed ==> s.token || Closing(s))
  }

  ghost predicate Closers<T>(s: State<T>) {
    forall c :: c in s.closers && s.closers[c] == NotifyClosed ==> s.closed
  }

  ghost predicate Inv<T>(s: State<T>) {
    && Shape(s)
    && Counters(s)
    && Slots(s)
    && Stored(s)
    && Producers(s)
    && SingleClaim(s)
    && NoOrphan(s)
    && ConsumerOk(s)
    && Batches(s)
    && Delivered(s)
    && Wakeup(s)
    && Closers(s)
  }

  lemma OtherSlots<T>(s: State<T>, p: nat)
    requires Shape(s)
    ensures forall q: nat :: p < q + s.capacity && q < p + s.capacity && q != p ==> Slot(s, q) != Slot(s, p)
  {
    forall q: nat | p < q + s.capacity && q < p + s.capacity && q != p
      ensures Slot(s, q) != Slot(s, p)
    {
      if q < p { WithinLapDistinct(q, p, s.capacity); } else { WithinLapDistinct(p, q, s.capacity); }
    }
  }

  lemma InitSlots<T>(capacity: nat, zero: T)
    requires capacity >= 2 && IsPow2(capacity)
    ensures Slots(Init(capacity, zero))
  {
    var s := Init(capacity, zero);
    forall p | Released(s) <= p < Released(s) + s.capacity
      ensures SlotOk(s, p)
    {
      FirstLapSlot(p, capacity);
    }
  }

  lemma InitInv<T>(capacity: nat, zero: T)
    requires capacity >= 2 && IsPow2(capacity)
    ensures Inv(Init(capacity, zero))
  {
    InitSlots(capacity, zero);
  }

  /** A sequence number that matches the loaded head proves the slot free. */
  lemma MatchMeansFree<T>(s: State<T>, h: nat)
    requires Shape(s) && Counters(s) && Slots(s) && h <= s.head
    ensures Unpublished(s, h) ==> h < Released(s) + s.capacity
    ensures s.seqs[Slot(s, h)] < h ==> h == s.head == Released(s) + s.capacity
  {
    if h >= Released(s) + s.capacity {
      assert h == s.head == Released(s) + s.capacity;
      NextLapSameSlot(h - s.capacity, s.capacity);
      assert SlotOk(s, h - s.capacity);
    } else if h >= Released(s) {
      assert SlotOk(s, h);
    } else {
      OldSlotIsAhead(s, h);
    }
  }

  /** A position that was handed back lies behind what its slot shows now. */
  lemma {:induction false} OldSlotIsAhead<T>(s: State<T>, h: nat)
    requires Shape(s) && Counters(s) && Slots(s) && h < Released(s)
    ensures s.seqs[Slot(s, h)] > h
    decreases Released(s) - h
  {
    NextLapSameSlot(h, s.capacity);
    if h + s.capacity < Released(s) {
      OldSlotIsAhead(s, h + s.capacity);
    } else {
      assert SlotOk(s, h + s.capacity);
    }
  }

  /** What a producer that loaded head `h` can see: a larger number exactly when `h` was claimed meanwhile and
      its slot has been published or handed back, its own number when the slot is free or the claim is not
      published yet, and a smaller one only when the ring is full. */
  lemma SequenceAgainstHead<T>(s: State<T>, h: nat)
    requires Shape(s) && Counters(s) && Slots(s) && h <= s.head
    ensures s.seqs[Slot(s, h)] > h <==> h < Released(s) || (h < s.head && Published(s, h))
    ensures s.seqs[Slot(s, h)] < h <==> h == s.head == Released(s) + s.capacity
  {
    if h < Released(s) {
      OldSlotIsAhead(s, h);
    } else if h < Released(s) + s.capacity {
      assert SlotOk(s, h);
    } else {
      NextLapSameSlot(h - s.capacity, s.capacity);
      assert SlotOk(s, h - s.capacity);
    }
  }
}
