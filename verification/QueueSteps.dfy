/** Every action of the ring protocol keeps the invariant, one conjunct at a time. */
module QueueSteps {
  import opened RingIndex
  import opened QueueProtocol
  import opened QueueInvariant

  // ---- producers ----

  /** What a producer action may do: thread `p` moves from `a` to `b`, and memory changes accordingly. */
  ghost predicate Effect<T>(s: State<T>, t: State<T>, p: nat, a: ProducerPc<T>, b: ProducerPc<T>)
    requires Shape(s)
  {
    && (if p in s.producers then s.producers[p] == a else a.Rejected?)
    && t == s.(producers := s.producers[p := b], head := t.head, log := t.log, data := t.data, seqs := t.seqs,
        token := t.token)
    && (if b.WriteData? then a.Cas? && b.h == a.h == s.head && b.item == a.item && t.head == s.head + 1
        && t.log == s.log + [a.item]
        else t.head == s.head && t.log == s.log)
    && t.data == (if a.WriteData? then s.data[Slot(s, a.h) := a.item] else s.data)
    && t.seqs == (if a.Publish? then s.seqs[Slot(s, a.h) := a.h + 1] else s.seqs)
    && t.token == (s.token || a.Notify?)
    && (if a.WriteData? then b == Publish(a.item, a.h) else !b.Publish?)
    && (if a.Publish? then b == Notify(a.item, a.h) else !b.Notify?)
    && (if a.Notify? then b == Accepted(a.item, a.h) else b.Accepted? ==> b == a)
    && (b.LoadSeq? ==> b.h == s.head)
    && (b.Cas? ==> a.LoadSeq? && b.h == a.h && Unpublished(s, a.h))
    && (b.ReloadHead? ==> a.LoadSeq? && b.h == a.h)
  }

  lemma EffectOfStep<T>(s: State<T>, p: nat)
    requires Shape(s) && p in s.producers
    ensures Effect(s, StepProducer(s, p), p, s.producers[p], NextPc(s, s.producers[p]))
  {
  }

  lemma EffectShape<T>(s: State<T>, t: State<T>, p: nat, a: ProducerPc<T>, b: ProducerPc<T>)
    requires Shape(s) && Effect(s, t, p, a, b)
    ensures Shape(t) && t.capacity == s.capacity && t.consumer == s.consumer && t.tail == s.tail
    ensures Released(t) == Released(s) && Copied(t) == Copied(s)
  {
  }

  lemma EffectCounters<T>(s: State<T>, t: State<T>, p: nat, a: ProducerPc<T>, b: ProducerPc<T>)
    requires Shape(s) && Effect(s, t, p, a, b) && Counters(s) && ProducerOk(s, a)
    ensures Counters(t)
  {
  }

  /** The one sequence number a producer may change. */
  lemma EffectSeqs<T>(s: State<T>, t: State<T>, p: nat, a: ProducerPc<T>, b: ProducerPc<T>, n: nat)
    requires Shape(s) && Effect(s, t, p, a, b) && Counters(s) && ProducerOk(s, a)
    requires Released(s) <= n < Released(s) + s.capacity
    ensures Shape(t)
    ensures if a.Publish? && a.h == n then Unpublished(s, n) && Published(t, n)
            else t.seqs[Slot(t, n)] == s.seqs[Slot(s, n)]
  {
    if a.Publish? { OtherSlots(s, a.h); }
  }

  lemma EffectSlots<T>(s: State<T>, t: State<T>, p: nat, a: ProducerPc<T>, b: ProducerPc<T>)
    requires Shape(s) && Effect(s, t, p, a, b) && Counters(s) && ProducerOk(s, a) && Slots(s)
    ensures Shape(t) && Slots(t)
  {
    EffectShape(s, t, p, a, b);
    forall n | Released(t) <= n < Released(t) + t.capacity
      ensures SlotOk(t, n)
    {
      assert SlotOk(s, n);
      EffectSeqs(s, t, p, a, b, n);
    }
  }

  lemma EffectStored<T>(s: State<T>, t: State<T>, p: nat, a: ProducerPc<T>, b: ProducerPc<T>)
    requires Shape(s) && Effect(s, t, p, a, b) && Counters(s) && ProducerOk(s, a) && Slots(s) && Stored(s)
    ensures Shape(t) && Counters(t) && Stored(t)
  {
    EffectShape(s, t, p, a, b);
    EffectCounters(s, t, p, a, b);
    forall n | Copied(t) <= n < t.head && Published(t, n)
      ensures t.data[Slot(t, n)] == t.log[n]
    {
      assert SlotOk(s, n);
      EffectSeqs(s, t, p, a, b, n);
      if a.WriteData? { OtherSlots(s, a.h); }
    }
  }

  lemma EffectSelf<T>(s: State<T>, t: State<T>, p: nat, a: ProducerPc<T>, b: ProducerPc<T>)
    requires Shape(s) && Effect(s, t, p, a, b) && Counters(s) && ProducerOk(s, a) && Slots(s)
    ensures Shape(t) && Counters(t) && ProducerOk(t, b)
  {
    EffectShape(s, t, p, a, b);
    EffectCounters(s, t, p, a, b);
    if a.LoadSeq? {
      MatchMeansFree(s, a.h);
    } else if b.WriteData? {
      assert SlotOk(s, a.h);
    }
  }

  lemma EffectOther<T>(s: State<T>, t: State<T>, p: nat, a: ProducerPc<T>, b: ProducerPc<T>, c: ProducerPc<T>)
    requires Shape(s) && Effect(s, t, p, a, b) && Counters(s) && ProducerOk(s, a) && ProducerOk(s, c)
    requires forall n :: !(a.Claims(n) && c.Claims(n))
    ensures Shape(t) && Counters(t) && ProducerOk(t, c)
  {
    EffectShape(s, t, p, a, b);
    EffectCounters(s, t, p, a, b);
    if c.WriteData? || c.Publish? {
      assert c.Claims(c.h);
      EffectSeqs(s, t, p, a, b, c.h);
      if a.WriteData? || a.Publish? {
        assert a.Claims(a.h);
        OtherSlots(s, a.h);
      }
    }
  }

  lemma EffectProducers<T>(s: State<T>, t: State<T>, p: nat, a: ProducerPc<T>, b: ProducerPc<T>)
    requires Shape(s) && Effect(s, t, p, a, b) && Counters(s) && ProducerOk(s, a) && Slots(s)
    requires Producers(s) && SingleClaim(s)
    ensures Shape(t) && Counters(t) && Producers(t)
  {
    EffectSelf(s, t, p, a, b);
    forall q | q in t.producers
      ensures ProducerOk(t, t.producers[q])
    {
      if q != p {
        assert ProducerOk(s, s.producers[q]);
        EffectOther(s, t, p, a, b, s.producers[q]);
      }
    }
  }

  lemma EffectClaim<T>(s: State<T>, t: State<T>, p: nat, a: ProducerPc<T>, b: ProducerPc<T>, q: nat, n: nat)
    requires Shape(s) && Effect(s, t, p, a, b) && Counters(s) && ProducerOk(s, a) && Producers(s)
    requires q in t.producers && t.producers[q].Claims(n)
    ensures if n == s.head then q == p else q in s.producers && s.producers[q].Claims(n)
  {
    if q != p { assert ProducerOk(s, s.producers[q]); }
  }

  lemma EffectClaims<T>(s: State<T>, t: State<T>, p: nat, a: ProducerPc<T>, b: ProducerPc<T>)
    requires Shape(s) && Effect(s, t, p, a, b) && Counters(s) && ProducerOk(s, a) && Producers(s) && SingleClaim(s)
    ensures SingleClaim(t)
  {
    forall q, r, n | q in t.producers && r in t.producers && t.producers[q].Claims(n) && t.producers[r].Claims(n)
      ensures q == r
    {
      EffectClaim(s, t, p, a, b, q, n);
      EffectClaim(s, t, p, a, b, r, n);
    }
  }

  lemma EffectOrphans<T>(s: State<T>, t: State<T>, p: nat, a: ProducerPc<T>, b: ProducerPc<T>)
    requires Shape(s) && Effect(s, t, p, a, b) && Counters(s) && ProducerOk(s, a) && NoOrphan(s)
    ensures Shape(t) && NoOrphan(t)
  {
    EffectShape(s, t, p, a, b);
    EffectCounters(s, t, p, a, b);
    forall n | Released(t) <= n < t.head && Unpublished(t, n)
      ensures Owned(t, n)
    {
      if n == s.head {
        assert t.producers[p].Owns(n);
      } else {
        EffectSeqs(s, t, p, a, b, n);
        assert Unpublished(s, n) && Owned(s, n);
        var q :| q in s.producers && s.producers[q].Owns(n);
        assert t.producers[q].Owns(n);
      }
    }
  }

  lemma EffectLog<T>(s: State<T>, t: State<T>, p: nat, a: ProducerPc<T>, b: ProducerPc<T>, lo: nat, hi: nat)
    requires Shape(s) && Effect(s, t, p, a, b) && Counters(s) && lo <= hi <= s.head
    ensures |t.log| >= hi && t.log[lo..hi] == s.log[lo..hi] && t.log[..hi] == s.log[..hi]
  {
  }

  lemma EffectBatch<T>(s: State<T>, t: State<T>, p: nat, a: ProducerPc<T>, b: ProducerPc<T>, limit: nat, base: nat,
      batch: seq<T>)
    requires Shape(s) && Effect(s, t, p, a, b) && Counters(s) && Batch(s, limit, base, batch)
    ensures |t.log| == t.head && Batch(t, limit, base, batch)
  {
    EffectLog(s, t, p, a, b, base, base + |batch|);
  }

  lemma EffectReady<T>(s: State<T>, t: State<T>, p: nat, a: ProducerPc<T>, b: ProducerPc<T>)
    requires Shape(s) && Effect(s, t, p, a, b) && Counters(s) && ProducerOk(s, a) && ConsumerOk(s)
    ensures Shape(t) && (s.consumer.ReadSlot? ==> Published(t, s.consumer.base + |s.consumer.batch|))
  {
    if s.consumer.ReadSlot? {
      EffectSeqs(s, t, p, a, b, s.consumer.base + |s.consumer.batch|);
    }
  }

  lemma EffectConsumer<T>(s: State<T>, t: State<T>, p: nat, a: ProducerPc<T>, b: ProducerPc<T>)
    requires Shape(s) && Effect(s, t, p, a, b) && Counters(s) && ConsumerOk(s) && Shape(t) && Counters(t)
    requires s.consumer.ReadSlot? ==> Published(t, s.consumer.base + |s.consumer.batch|)
    ensures ConsumerOk(t)
  {
    match s.consumer {
      case Scan(limit, _, base, batch) => EffectBatch(s, t, p, a, b, limit, base, batch);
      case ReadSlot(limit, _, base, batch) => EffectBatch(s, t, p, a, b, limit, base, batch);
      case ClearSlot(limit, _, base, batch) => EffectBatch(s, t, p, a, b, limit, base, batch);
      case StoreTail(base, batch) => EffectBatch(s, t, p, a, b, |batch|, base, batch);
      case Release(base, batch, _) => EffectLog(s, t, p, a, b, base, base + |batch|);
      case _ =>
    }
  }

  lemma EffectDelivered<T>(s: State<T>, t: State<T>, p: nat, a: ProducerPc<T>, b: ProducerPc<T>)
    requires Shape(s) && Effect(s, t, p, a, b) && Counters(s) && ProducerOk(s, a) && Delivered(s)
    ensures Shape(t) && Counters(t) && Delivered(t)
  {
    EffectShape(s, t, p, a, b);
    EffectCounters(s, t, p, a, b);
    var n := if s.consumer.Release? then s.consumer.base else s.tail;
    EffectLog(s, t, p, a, b, 0, n);
  }

  lemma EffectWakeup<T>(s: State<T>, t: State<T>, p: nat, a: ProducerPc<T>, b: ProducerPc<T>)
    requires Shape(s) && Effect(s, t, p, a, b) && Counters(s) && ProducerOk(s, a) && Wakeup(s)
    ensures Shape(t) && Wakeup(t)
  {
    EffectShape(s, t, p, a, b);
    if Sleepy(t) && Published(t, t.tail) && !t.token {
      EffectSeqs(s, t, p, a, b, t.tail);
      if Published(s, s.tail) {
        var q :| q in s.producers && s.producers[q].Notify? && s.producers[q].h == s.tail;
        assert t.producers[q].Notify? && t.producers[q].h == t.tail;
      } else {
        assert t.producers[p].Notify? && t.producers[p].h == t.tail;
      }
    }
    if Closing(s) {
      var c :| c in s.closers && s.closers[c] == NotifyClosed;
      assert t.closers[c] == NotifyClosed;
    }
  }

  lemma EffectKeeps<T>(s: State<T>, t: State<T>, p: nat, a: ProducerPc<T>, b: ProducerPc<T>)
    requires Inv(s) && Effect(s, t, p, a, b)
    ensures Inv(t)
  {
    assert ProducerOk(s, a);
    EffectShape(s, t, p, a, b);
    EffectCounters(s, t, p, a, b);
    EffectSlots(s, t, p, a, b);
    EffectStored(s, t, p, a, b);
    EffectProducers(s, t, p, a, b);
    EffectClaims(s, t, p, a, b);
    EffectOrphans(s, t, p, a, b);
    EffectReady(s, t, p, a, b);
    EffectConsumer(s, t, p, a, b);
    EffectDelivered(s, t, p, a, b);
    EffectWakeup(s, t, p, a, b);
  }

  lemma ProducerKeeps<T>(s: State<T>, p: nat)
    requires Inv(s)
    ensures Inv(StepProducer(s, p))
  {
    if p in s.producers {
      EffectOfStep(s, p);
      EffectKeeps(s, StepProducer(s, p), p, s.producers[p], NextPc(s, s.producers[p]));
    }
  }

  lemma CallKeeps<T>(s: State<T>, p: nat, item: T, once: bool)
    requires Inv(s) && ProducerFree(s, p)
    ensures Inv(At(s, p, LoadClosed(item, once)))
  {
    EffectKeeps(s, At(s, p, LoadClosed(item, once)), p,
                if p in s.producers then s.producers[p] else Rejected(item), LoadClosed(item, once));
  }

  // ---- the consumer ----

  /** A consumer action that writes no sequence number; slots below `Copied(t)` may be cleared. */
  ghost predicate Quiet<T>(s: State<T>, t: State<T>)
    requires Shape(s)
  {
    && t == s.(consumer := t.consumer, tail := t.tail, data := t.data, token := t.token, batches := t.batches)
    && Shape(t)
    && Released(t) == Released(s)
    && forall p :: Released(s) <= p < s.head && (p >= Copied(t) || Unpublished(s, p))
        ==> t.data[Slot(t, p)] == s.data[Slot(s, p)]
  }

  lemma QuietProducers<T>(s: State<T>, t: State<T>)
    requires Shape(s) && Quiet(s, t) && Counters(s) && Producers(s) && SingleClaim(s) && NoOrphan(s)
    ensures Producers(t) && SingleClaim(t) && NoOrphan(t)
  {
    forall q | q in t.producers
      ensures ProducerOk(t, t.producers[q])
    {
      assert ProducerOk(s, s.producers[q]);
      if s.producers[q].Publish? { assert Unpublished(s, s.producers[q].h); }
    }
    forall n | Released(t) <= n < t.head && Unpublished(t, n)
      ensures Owned(t, n)
    {
      assert Unpublished(s, n) && Owned(s, n);
      var q :| q in s.producers && s.producers[q].Owns(n);
      assert t.producers[q].Owns(n);
    }
  }

  lemma QuietSlots<T>(s: State<T>, t: State<T>)
    requires Shape(s) && Quiet(s, t) && Counters(s) && Slots(s)
    requires forall p :: Copied(s) <= p < Copied(t) ==> Published(s, p)
    ensures Slots(t)
  {
    forall p | Released(t) <= p < Released(t) + t.capacity
      ensures SlotOk(t, p)
    {
      assert SlotOk(s, p);
      if Copied(s) <= p < Copied(t) { assert Published(s, p); }
      assert t.seqs[Slot(t, p)] == s.seqs[Slot(s, p)];
    }
  }

  lemma QuietStored<T>(s: State<T>, t: State<T>)
    requires Shape(s) && Quiet(s, t) && Counters(s) && Counters(t) && Stored(s) && Copied(t) >= Copied(s)
    ensures Stored(t)
  {
    forall p | Copied(t) <= p < t.head && Published(t, p)
      ensures t.data[Slot(t, p)] == t.log[p]
    {
      assert Published(s, p);
    }
  }

  lemma QuietKeeps<T>(s: State<T>, t: State<T>)
    requires Inv(s) && Quiet(s, t)
    requires Counters(t) && Copied(t) >= Copied(s)
    requires forall p :: Copied(s) <= p < Copied(t) ==> Published(s, p)
    requires ConsumerOk(t) && Batches(t) && Delivered(t) && Wakeup(t)
    ensures Inv(t)
  {
    QuietProducers(s, t);
    QuietSlots(s, t);
    QuietStored(s, t);
  }

  /** A position that nobody claimed never looks published. */
  lemma HeadNotPublished<T>(s: State<T>)
    requires Shape(s) && Counters(s) && Slots(s)
    ensures !Published(s, s.head)
  {
    if s.head < Released(s) + s.capacity {
      assert SlotOk(s, s.head);
    } else {
      NextLapSameSlot(s.head - s.capacity, s.capacity);
      assert SlotOk(s, s.head - s.capacity);
    }
  }

  /** Where a scan leads. */
  lemma ScanNext<T>(s: State<T>)
    requires Shape(s) && s.consumer.Scan?
    ensures var t := StepConsumer(s); var base, batch := s.consumer.base, s.consumer.batch;
            && t == s.(consumer := t.consumer)
            && ((t.consumer == ReadSlot(s.consumer.limit, s.consumer.spins, base, batch)
                 && |batch| < s.consumer.limit && Published(s, base + |batch|))
                || (t.consumer == TestClosed(s.consumer.limit, s.consumer.spins) && batch == []
                    && (s.consumer.limit > 0 ==> !Published(s, base)))
                || (t.consumer == StoreTail(base, batch) && batch != []))
  {
  }

  lemma ScanConsumer<T>(s: State<T>)
    requires Shape(s) && Counters(s) && Slots(s) && ConsumerOk(s) && s.consumer.Scan?
    ensures var t := StepConsumer(s);
            Counters(t) && Copied(t) == Copied(s) && Shape(t) && ConsumerOk(t)
  {
    HeadNotPublished(s);
    ScanNext(s);
  }

  lemma ScanRest<T>(s: State<T>)
    requires Shape(s) && Counters(s) && ConsumerOk(s) && Delivered(s) && s.consumer.Scan?
    ensures var t := StepConsumer(s);
            Quiet(s, t) && |t.log| == t.head && Delivered(t) && Wakeup(t)
  {
    ScanNext(s);
  }

  lemma ScanLocal<T>(s: State<T>)
    requires Shape(s) && Counters(s) && Slots(s) && ConsumerOk(s) && Delivered(s) && s.consumer.Scan?
    ensures var t := StepConsumer(s);
            Quiet(s, t) && Counters(t) && Copied(t) == Copied(s) && ConsumerOk(t) && Delivered(t) && Wakeup(t)
  {
    ScanConsumer(s);
    ScanRest(s);
  }

  lemma ScanKeeps<T>(s: State<T>)
    requires Inv(s) && s.consumer.Scan?
    ensures Inv(StepConsumer(s))
  {
    ScanLocal(s);
    QuietKeeps(s, StepConsumer(s));
  }

  lemma ReadBatch<T>(s: State<T>)
    requires Shape(s) && Counters(s) && Stored(s) && ConsumerOk(s) && s.consumer.ReadSlot?
    ensures Batch(s, s.consumer.limit, s.consumer.base, NextConsumerPc(s).batch)
  {
    var next := s.consumer.base + |s.consumer.batch|;
    assert Published(s, next) && s.data[Slot(s, next)] == s.log[next];
    assert s.log[s.consumer.base..next] + [s.log[next]] == s.log[s.consumer.base..next + 1];
  }

  lemma ReadLocal<T>(s: State<T>)
    requires Shape(s) && Counters(s) && Stored(s) && ConsumerOk(s) && Delivered(s) && s.consumer.ReadSlot?
    ensures var t := StepConsumer(s);
            Quiet(s, t) && Counters(t) && Copied(t) == Copied(s) + 1 && ConsumerOk(t) && Delivered(t) && Wakeup(t)
  {
    ReadBatch(s);
  }

  lemma ReadKeeps<T>(s: State<T>)
    requires Inv(s) && s.consumer.ReadSlot?
    ensures Inv(StepConsumer(s))
  {
    ReadLocal(s);
    QuietKeeps(s, StepConsumer(s));
  }

  lemma ClearKeeps<T>(s: State<T>)
    requires Inv(s) && s.consumer.ClearSlot?
    ensures Inv(StepConsumer(s))
  {
    var t := StepConsumer(s);
    var last := s.consumer.base + |s.consumer.batch| - 1;
    assert SlotOk(s, last);
    OtherSlots(s, last);
    QuietKeeps(s, t);
  }

  lemma StoreTailKeeps<T>(s: State<T>)
    requires Inv(s) && s.consumer.StoreTail?
    ensures Inv(StepConsumer(s))
  {
    QuietKeeps(s, StepConsumer(s));
  }

  /** The steps of `Dequeue` between finding nothing and starting over or giving up. */
  predicate Waiting<T>(c: ConsumerPc<T>) {
    !c.Scan? && !c.ReadSlot? && !c.ClearSlot? && !c.StoreTail? && !c.Release?
  }

  lemma WaitingLocal<T>(s: State<T>)
    requires Shape(s) && Counters(s) && ConsumerOk(s) && Wakeup(s) && Waiting(s.consumer)
    ensures var t := StepConsumer(s);
            Quiet(s, t) && Counters(t) && Copied(t) == Copied(s) && ConsumerOk(t)
  {
  }

  lemma WaitingDelivered<T>(s: State<T>)
    requires Shape(s) && Counters(s) && Delivered(s) && Waiting(s.consumer)
    ensures |StepConsumer(s).log| == StepConsumer(s).head && Delivered(StepConsumer(s))
  {
    var t := StepConsumer(s);
    if s.consumer.LenHead? && t.consumer.Idle? {
      assert t.batches[..|t.batches| - 1] == s.batches;
      assert Flatten(t.batches) == Flatten(s.batches) + [];
    }
  }

  lemma WaitingWakeup<T>(s: State<T>)
    requires Shape(s) && Wakeup(s) && Waiting(s.consumer)
    ensures Shape(StepConsumer(s)) && Wakeup(StepConsumer(s))
  {
    var t := StepConsumer(s);
    if Notifying(s, s.tail) {
      var q :| q in s.producers && s.producers[q].Notify? && s.producers[q].h == s.tail;
      assert t.producers[q].Notify? && t.producers[q].h == t.tail;
    }
  }

  lemma WaitingKeeps<T>(s: State<T>)
    requires Inv(s) && Waiting(s.consumer)
    ensures Inv(StepConsumer(s))
  {
    WaitingLocal(s);
    WaitingDelivered(s);
    WaitingWakeup(s);
    QuietKeeps(s, StepConsumer(s));
  }

  // releasing one slot

  lemma ReleaseSeqs<T>(s: State<T>, n: nat)
    requires Shape(s) && Counters(s) && s.consumer.Release? && s.consumer.i < |s.consumer.batch|
    requires Released(s) < n <= Released(s) + s.capacity
    ensures var t := StepConsumer(s);
            Shape(t) && t.capacity == s.capacity && Released(t) == Released(s) + 1 &&
            if n == Released(s) + s.capacity then Unpublished(t, n) else t.seqs[Slot(t, n)] == s.seqs[Slot(s, n)]
    requires s.consumer.i + 1 == |s.consumer.batch| ==> s.tail == s.consumer.base + |s.consumer.batch|
  {
    OtherSlots(s, Released(s));
    NextLapSameSlot(Released(s), s.capacity);
  }

  lemma ReleaseSlots<T>(s: State<T>)
    requires Shape(s) && Counters(s) && s.consumer.Release? && Slots(s) && ConsumerOk(s)
    ensures Shape(StepConsumer(s)) && Counters(StepConsumer(s)) && Slots(StepConsumer(s))
  {
    var t := StepConsumer(s);
    ReleaseSeqs(s, Released(s) + s.capacity);
    forall n | Released(t) <= n < Released(t) + t.capacity
      ensures SlotOk(t, n)
    {
      ReleaseSeqs(s, n);
      if n < Released(s) + s.capacity { assert SlotOk(s, n); }
    }
  }

  lemma ReleaseStored<T>(s: State<T>)
    requires Shape(s) && Counters(s) && s.consumer.Release? && Slots(s) && Stored(s) && ConsumerOk(s)
    ensures Shape(StepConsumer(s)) && Counters(StepConsumer(s)) && Stored(StepConsumer(s))
  {
    var t := StepConsumer(s);
    ReleaseSlots(s);
    forall n | Copied(t) <= n < t.head && Published(t, n)
      ensures t.data[Slot(t, n)] == t.log[n]
    {
      ReleaseSeqs(s, n);
    }
  }

  lemma ReleaseProducer<T>(s: State<T>, c: ProducerPc<T>)
    requires Shape(s) && Counters(s) && s.consumer.Release? && Slots(s) && ConsumerOk(s) && ProducerOk(s, c)
    ensures Shape(StepConsumer(s)) && Counters(StepConsumer(s)) && ProducerOk(StepConsumer(s), c)
  {
    ReleaseSlots(s);
    ReleaseSeqs(s, Released(s) + s.capacity);
    if c.WriteData? || c.Publish? {
      assert SlotOk(s, Released(s));
      assert c.h != Released(s);
      ReleaseSeqs(s, c.h);
    }
  }

  lemma ReleaseProducers<T>(s: State<T>)
    requires Shape(s) && Counters(s) && s.consumer.Release? && Slots(s) && ConsumerOk(s)
    requires Producers(s) && SingleClaim(s) && NoOrphan(s)
    ensures Shape(StepConsumer(s)) && Counters(StepConsumer(s))
    ensures Producers(StepConsumer(s)) && SingleClaim(StepConsumer(s)) && NoOrphan(StepConsumer(s))
  {
    var t := StepConsumer(s);
    ReleaseSlots(s);
    forall q | q in t.producers
      ensures ProducerOk(t, t.producers[q])
    {
      assert ProducerOk(s, s.producers[q]);
      ReleaseProducer(s, s.producers[q]);
    }
    forall n | Released(t) <= n < t.head && Unpublished(t, n)
      ensures Owned(t, n)
    {
      ReleaseSeqs(s, n);
      assert Unpublished(s, n) && Owned(s, n);
      var q :| q in s.producers && s.producers[q].Owns(n);
      assert t.producers[q].Owns(n);
    }
  }

  lemma ReleaseDelivered<T>(s: State<T>)
    requires Shape(s) && Counters(s) && s.consumer.Release? && ConsumerOk(s) && Delivered(s)
    ensures Delivered(StepConsumer(s))
  {
    var t := StepConsumer(s);
    var base, batch := s.consumer.base, s.consumer.batch;
    if t.consumer.Idle? {
      assert t.batches[..|t.batches| - 1] == s.batches;
      assert s.log[..base] + s.log[base..base + |batch|] == s.log[..base + |batch|];
    }
  }

  lemma ReleaseLocal<T>(s: State<T>)
    requires Shape(s) && Counters(s) && s.consumer.Release? && ConsumerOk(s)
    ensures var t := StepConsumer(s);
            && Shape(t) && |t.log| == t.head && ConsumerOk(t)
            && (t.consumer.Idle? || t.consumer.Release?) && t.closed == s.closed && t.closers == s.closers
  {
  }

  lemma ReleaseBatches<T>(s: State<T>)
    requires Shape(s) && Counters(s) && s.consumer.Release? && ConsumerOk(s) && Batches(s)
    ensures Batches(StepConsumer(s))
  {
  }

  lemma ReleaseRest<T>(s: State<T>)
    requires Shape(s) && Counters(s) && s.consumer.Release? && ConsumerOk(s) && Batches(s) && Closers(s)
    ensures var t := StepConsumer(s);
            Shape(t) && |t.log| == t.head && ConsumerOk(t) && Batches(t) && Wakeup(t) && Closers(t)
  {
    ReleaseLocal(s);
    ReleaseBatches(s);
  }

  lemma ReleaseKeeps<T>(s: State<T>)
    requires Inv(s) && s.consumer.Release?
    ensures Inv(StepConsumer(s))
  {
    ReleaseRest(s);
    ReleaseSlots(s);
    ReleaseStored(s);
    ReleaseProducers(s);
    ReleaseDelivered(s);
  }

  lemma ConsumerKeeps<T>(s: State<T>)
    requires Inv(s)
    ensures Inv(StepConsumer(s))
  {
    match s.consumer
    case Scan(_, _, _, _) => ScanKeeps(s);
    case ReadSlot(_, _, _, _) => ReadKeeps(s);
    case ClearSlot(_, _, _, _) => ClearKeeps(s);
    case StoreTail(_, _) => StoreTailKeeps(s);
    case Release(_, _, _) => ReleaseKeeps(s);
    case _ => WaitingKeeps(s);
  }

  // ---- closers ----

  /** Closing touches nothing but the flag, the token and the closers. */
  ghost predicate ClosingOnly<T>(s: State<T>, t: State<T>) {
    t == s.(closed := t.closed, token := t.token, closers := t.closers)
  }

  lemma ClosingRing<T>(s: State<T>, t: State<T>)
    requires ClosingOnly(s, t) && Shape(s) && Counters(s) && Slots(s) && Stored(s)
    ensures Shape(t) && Counters(t) && Slots(t) && Stored(t)
  {
    forall p | Released(t) <= p < Released(t) + t.capacity
      ensures SlotOk(t, p)
    {
      assert SlotOk(s, p);
    }
    forall p | Copied(t) <= p < t.head && Published(t, p)
      ensures t.data[Slot(t, p)] == t.log[p]
    {
      assert Published(s, p);
    }
  }

  lemma ClosingProducers<T>(s: State<T>, t: State<T>)
    requires ClosingOnly(s, t) && Shape(s) && Counters(s) && Producers(s) && SingleClaim(s) && NoOrphan(s)
    ensures Shape(t) && Counters(t) && Producers(t) && SingleClaim(t) && NoOrphan(t)
  {
    forall q | q in t.producers
      ensures ProducerOk(t, t.producers[q])
    {
      assert ProducerOk(s, s.producers[q]);
    }
    forall n | Released(t) <= n < t.head && Unpublished(t, n)
      ensures Owned(t, n)
    {
      assert Unpublished(s, n) && Owned(s, n);
      var q :| q in s.producers && s.producers[q].Owns(n);
      assert t.producers[q].Owns(n);
    }
  }

  lemma ClosingWakeup<T>(s: State<T>, t: State<T>)
    requires ClosingOnly(s, t) && Shape(s) && Wakeup(s)
    requires s.token ==> t.token
    requires t.closed && (!s.closed || Closing(s)) ==> t.token || Closing(t)
    ensures Shape(t) && Wakeup(t)
  {
    if Notifying(s, s.tail) {
      var q :| q in s.producers && s.producers[q].Notify? && s.producers[q].h == s.tail;
      assert t.producers[q].Notify? && t.producers[q].h == t.tail;
    }
  }

  lemma ClosingConsumer<T>(s: State<T>, t: State<T>)
    requires ClosingOnly(s, t) && Shape(s) && Counters(s) && ConsumerOk(s) && Delivered(s) && Batches(s)
    requires s.closed ==> t.closed
    ensures Shape(t) && Counters(t) && ConsumerOk(t) && Delivered(t) && Batches(t)
  {
  }

  lemma ClosingKeeps<T>(s: State<T>, t: State<T>)
    requires Inv(s) && ClosingOnly(s, t)
    requires (s.closed ==> t.closed) && (s.token ==> t.token)
    requires Closers(t)
    requires t.closed && (!s.closed || Closing(s)) ==> t.token || Closing(t)
    ensures Inv(t)
  {
    ClosingRing(s, t);
    ClosingProducers(s, t);
    ClosingConsumer(s, t);
    ClosingWakeup(s, t);
  }

  lemma CloserKeeps<T>(s: State<T>, c: nat)
    requires Inv(s)
    ensures Inv(StepCloser(s, c))
  {
    var t := StepCloser(s, c);
    if c in s.closers && !s.closers[c].Returned? {
      if Closing(s) && !t.token {
        var d :| d in s.closers && s.closers[d] == NotifyClosed;
        assert t.closers[d] == NotifyClosed;
      }
      if !s.closed { assert t.closers[c] == NotifyClosed; }
      ClosingKeeps(s, t);
    }
  }

  lemma CallCloseKeeps<T>(s: State<T>, c: nat)
    requires Inv(s)
    ensures Inv(Do(s, CallClose(c)))
  {
    var t := Do(s, CallClose(c));
    if Closing(s) {
      var d :| d in s.closers && s.closers[d] == NotifyClosed;
      assert t.closers[d] == NotifyClosed;
    }
    ClosingKeeps(s, t);
  }

  lemma CallDequeueLocal<T>(s: State<T>, limit: nat)
    requires Shape(s) && Counters(s) && ConsumerOk(s) && Wakeup(s)
    ensures var t := Do(s, CallDequeue(limit));
            Quiet(s, t) && Counters(t) && Copied(t) == Copied(s) && ConsumerOk(t) && Wakeup(t)
  {
  }

  lemma CallDequeueKeeps<T>(s: State<T>, limit: nat)
    requires Inv(s)
    ensures Inv(Do(s, CallDequeue(limit)))
  {
    CallDequeueLocal(s, limit);
    QuietKeeps(s, Do(s, CallDequeue(limit)));
  }

  // ---- every action, every schedule ----

  lemma DoKeeps<T>(s: State<T>, a: Action<T>)
    requires Inv(s)
    ensures Inv(Do(s, a))
  {
    match a
    case CallEnqueue(p, item) => if ProducerFree(s, p) { CallKeeps(s, p, item, false); }
    case CallTryEnqueue(p, item) => if ProducerFree(s, p) { CallKeeps(s, p, item, true); }
    case ProducerStep(p) => ProducerKeeps(s, p);
    case CallDequeue(limit) => CallDequeueKeeps(s, limit);
    case ConsumerStep => ConsumerKeeps(s);
    case CallClose(c) => CallCloseKeeps(s, c);
    case CloserStep(c) => CloserKeeps(s, c);
  }

  /** The invariant holds after every schedule of a new queue. */
  lemma {:induction false} InvAlways<T>(capacity: nat, zero: T, schedule: seq<Action<T>>)
    requires capacity >= 2 && IsPow2(capacity)
    ensures Inv(After(Init(capacity, zero), schedule))
  {
    if schedule == [] {
      InitInv(capacity, zero);
    } else {
      var before := schedule[..|schedule| - 1];
      InvAlways(capacity, zero, before);
      DoKeeps(After(Init(capacity, zero), before), schedule[|schedule| - 1]);
    }
  }
}
