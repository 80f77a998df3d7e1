/** What each call does when it runs alone: calls that should succeed do, and leave what they promise. */
module QueueProgress {
  import opened RingIndex
  import opened QueueProtocol
  import opened QueueInvariant
  import opened QueueSteps
  import opened QueueTheorems

  /** One thread takes `n` steps in a row. */
  function Steps<T>(s: State<T>, a: Action<T>, n: nat): (t: State<T>)
    requires Shape(s)
    ensures Shape(t) && t.capacity == s.capacity
    decreases n, s.capacity
  {
    if n == 0 then s
    else
      ShapeKept(s, a);
      Steps(Do(s, a), a, n - 1)
  }

  lemma {:induction false} StepsJoined<T>(s: State<T>, a: Action<T>, m: nat, n: nat)
    requires Shape(s)
    ensures Steps(s, a, m + n) == Steps(Steps(s, a, m), a, n)
    decreases m
  {
    if m > 0 {
      ShapeKept(s, a);
      StepsJoined(Do(s, a), a, m - 1, n);
    }
  }

  lemma Join<T>(s: State<T>, a: Action<T>, m: nat, t: State<T>, n: nat, u: State<T>)
    requires Shape(s) && Shape(t) && Steps(s, a, m) == t && Steps(t, a, n) == u
    ensures Steps(s, a, m + n) == u
  {
    StepsJoined(s, a, m, n);
  }

  lemma OneStep<T>(s: State<T>, a: Action<T>)
    requires Shape(s)
    ensures Steps(s, a, 1) == Do(s, a)
  {
    ShapeKept(s, a);
    assert Steps(Do(s, a), a, 0) == Do(s, a);
  }

  lemma OneMoreAction<T>(s: State<T>, schedule: seq<Action<T>>, a: Action<T>)
    requires Shape(s)
    ensures After(s, schedule + [a]) == Do(After(s, schedule), a)
  {
    assert (schedule + [a])[..|schedule|] == schedule;
  }

  lemma OneMoreStep<T>(s: State<T>, a: Action<T>, n: nat)
    requires Shape(s)
    ensures Steps(s, a, n + 1) == Do(Steps(s, a, n), a)
  {
    OneStep(Steps(s, a, n), a);
    StepsJoined(s, a, n, 1);
  }

  /** Steps in a row are a schedule. */
  lemma {:induction false} StepsAreASchedule<T>(s: State<T>, a: Action<T>, n: nat)
    requires Shape(s)
    ensures Steps(s, a, n) == After(s, seq(n, _ => a))
    decreases n
  {
    if n > 0 {
      StepsAreASchedule(s, a, n - 1);
      OneMoreStep(s, a, n - 1);
      OneMoreAction(s, seq(n - 1, _ => a), a);
      assert seq(n, _ => a) == seq(n - 1, _ => a) + [a];
    }
  }

  // ---- Enqueue and TryEnqueue ----

  /** The call of `Enqueue`, or with `once` of `TryEnqueue`. */
  function Call<T>(p: nat, item: T, once: bool): Action<T> {
    if once then CallTryEnqueue(p, item) else CallEnqueue(p, item)
  }

  lemma Called<T>(s: State<T>, p: nat, item: T, once: bool)
    requires Shape(s) && ProducerFree(s, p)
    ensures Do(s, Call(p, item, once)) == At(s, p, LoadClosed(item, once))
  {
  }

  /** Two loads on an open queue. */
  lemma TwoLoads<T>(s: State<T>, p: nat, item: T, once: bool)
    requires Shape(s) && !s.closed
    ensures Steps(At(s, p, LoadClosed(item, once)), ProducerStep(p), 2) == At(s, p, LoadSeq(item, once, s.head))
  {
    LoadStep(s, p, LoadClosed(item, once));
    LoadStep(s, p, LoadHead(item, once));
    var a: Action<T> := ProducerStep(p);
    assert Steps(At(s, p, LoadSeq(item, once, s.head)), a, 0) == At(s, p, LoadSeq(item, once, s.head));
    assert Steps(At(s, p, LoadHead(item, once)), a, 1) == At(s, p, LoadSeq(item, once, s.head));
  }

  /** The state after producer `p` has claimed, written, published and notified. */
  function Delivery<T>(s: State<T>, p: nat, item: T): State<T>
    requires Shape(s)
  {
    At(s, p, Accepted(item, s.head)).(
      head := s.head + 1,
      log := s.log + [item],
      data := s.data[Slot(s, s.head) := item],
      seqs := s.seqs[Slot(s, s.head) := s.head + 1],
      token := true)
  }

  lemma ClaimStep<T>(s: State<T>, p: nat, item: T, once: bool)
    requires Shape(s)
    ensures Do(At(s, p, Cas(item, once, s.head)), ProducerStep(p))
         == At(s, p, WriteData(item, s.head)).(head := s.head + 1, log := s.log + [item])
  {
    assert s.producers[p := Cas(item, once, s.head)][p := WriteData(item, s.head)]
        == s.producers[p := WriteData(item, s.head)];
  }

  lemma WriteStep<T>(s: State<T>, p: nat, item: T, h: nat)
    requires Shape(s)
    ensures Do(At(s, p, WriteData(item, h)), ProducerStep(p))
         == At(s, p, Publish(item, h)).(data := s.data[Slot(s, h) := item])
  {
    assert s.producers[p := WriteData(item, h)][p := Publish(item, h)] == s.producers[p := Publish(item, h)];
  }

  lemma PublishStep<T>(s: State<T>, p: nat, item: T, h: nat)
    requires Shape(s)
    ensures Do(At(s, p, Publish(item, h)), ProducerStep(p))
         == At(s, p, Notify(item, h)).(seqs := s.seqs[Slot(s, h) := h + 1])
  {
    assert s.producers[p := Publish(item, h)][p := Notify(item, h)] == s.producers[p := Notify(item, h)];
  }

  lemma NotifyStep<T>(s: State<T>, p: nat, item: T, h: nat)
    requires Shape(s)
    ensures Do(At(s, p, Notify(item, h)), ProducerStep(p)) == At(s, p, Accepted(item, h)).(token := true)
  {
    assert s.producers[p := Notify(item, h)][p := Accepted(item, h)] == s.producers[p := Accepted(item, h)];
  }

  lemma FourSteps<T>(s: State<T>, a: Action<T>, s1: State<T>, s2: State<T>, s3: State<T>, s4: State<T>)
    requires Shape(s) && Do(s, a) == s1 && Shape(s1) && Do(s1, a) == s2 && Shape(s2) && Do(s2, a) == s3 && Shape(s3)
    requires Do(s3, a) == s4
    ensures Steps(s, a, 4) == s4
  {
    ShapeKept(s3, a);
    assert Steps(s4, a, 0) == s4;
    assert Steps(s3, a, 1) == s4;
    assert Steps(s2, a, 2) == s4;
    assert Steps(s1, a, 3) == s4;
  }

  lemma LastFour<T>(s: State<T>, p: nat, item: T, once: bool)
    requires Shape(s)
    ensures Steps(At(s, p, Cas(item, once, s.head)), ProducerStep(p), 4) == Delivery(s, p, item)
  {
    var h := s.head;
    var t1 := s.(head := h + 1, log := s.log + [item]);
    var t2 := t1.(data := s.data[Slot(s, h) := item]);
    var t3 := t2.(seqs := s.seqs[Slot(s, h) := h + 1]);
    ClaimStep(s, p, item, once);
    WriteStep(t1, p, item, h);
    PublishStep(t2, p, item, h);
    NotifyStep(t3, p, item, h);
    FourSteps(At(s, p, Cas(item, once, h)), ProducerStep(p), At(t1, p, WriteData(item, h)), At(t2, p, Publish(item, h)),
      At(t3, p, Notify(item, h)), Delivery(s, p, item));
  }

  /** The third load sees a free slot. */
  lemma ThirdLoad<T>(s: State<T>, p: nat, item: T, once: bool)
    requires Shape(s) && Slots(s) && |s.log| == s.head && Released(s) <= s.head < Released(s) + s.capacity
    ensures Steps(At(s, p, LoadSeq(item, once, s.head)), ProducerStep(p), 1) == At(s, p, Cas(item, once, s.head))
  {
    var a: Action<T> := ProducerStep(p);
    assert SlotOk(s, s.head);
    LoadStep(s, p, LoadSeq(item, once, s.head));
    assert Steps(At(s, p, Cas(item, once, s.head)), a, 0) == At(s, p, Cas(item, once, s.head));
  }

  /** Seven steps lead from the start of the call to the delivery. */
  lemma SevenSteps<T>(s: State<T>, p: nat, item: T, once: bool)
    requires Shape(s) && Slots(s) && |s.log| == s.head && Released(s) <= s.head < Released(s) + s.capacity && !s.closed
    ensures Steps(At(s, p, LoadClosed(item, once)), ProducerStep(p), 7) == Delivery(s, p, item)
  {
    var a: Action<T> := ProducerStep(p);
    var start := At(s, p, LoadClosed(item, once));
    TwoLoads(s, p, item, once);
    ThirdLoad(s, p, item, once);
    LastFour(s, p, item, once);
    StepsJoined(start, a, 2, 1);
    StepsJoined(start, a, 3, 4);
  }

  /** On an open queue with room a call that runs alone is accepted after seven steps: the item is claimed at the
      head, stored in its slot and published, and a token is in the channel. */
  lemma AloneAccepted<T>(s: State<T>, p: nat, item: T, once: bool)
    requires Inv(s) && !s.closed && s.head < Released(s) + s.capacity && ProducerFree(s, p)
    ensures var t := Steps(Do(s, Call(p, item, once)), ProducerStep(p), 7);
            && t.producers == s.producers[p := Accepted(item, s.head)]
            && t.log == s.log + [item] && t.head == s.head + 1
            && Published(t, s.head) && t.data[Slot(t, s.head)] == item && t.token
  {
    Called(s, p, item, once);
    SevenSteps(s, p, item, once);
    assert Delivery(s, p, item).producers == s.producers[p := Accepted(item, s.head)];
  }

  /** On an open full queue a call that runs alone is refused after three steps, or after a second look at `head`,
      and leaves everything else as it is. */
  lemma AloneRefused<T>(s: State<T>, p: nat, item: T, once: bool)
    requires Inv(s) && !s.closed && s.head == Released(s) + s.capacity && ProducerFree(s, p)
    ensures Steps(Do(s, Call(p, item, once)), ProducerStep(p), if once then 3 else 4) == At(s, p, Rejected(item))
  {
    var a: Action<T> := ProducerStep(p);
    Called(s, p, item, once);
    TwoLoads(s, p, item, once);
    SequenceAgainstHead(s, s.head);
    LoadStep(s, p, LoadSeq(item, once, s.head));
    var next: ProducerPc<T> := if once then Rejected(item) else ReloadHead(item, s.head);
    assert Steps(At(s, p, next), a, 0) == At(s, p, next);
    assert Steps(At(s, p, LoadSeq(item, once, s.head)), a, 1) == At(s, p, next);
    StepsJoined(At(s, p, LoadClosed(item, once)), a, 2, 1);
    if !once {
      SecondLook(s, p, item);
      StepsJoined(At(s, p, LoadClosed(item, once)), a, 3, 1);
    }
  }

  lemma SecondLook<T>(s: State<T>, p: nat, item: T)
    requires Shape(s)
    ensures Steps(At(s, p, ReloadHead(item, s.head)), ProducerStep(p), 1) == At(s, p, Rejected(item))
  {
    var a: Action<T> := ProducerStep(p);
    var t := At(s, p, ReloadHead(item, s.head));
    assert t.producers[p := Rejected(item)] == s.producers[p := Rejected(item)];
    assert Do(t, a) == At(s, p, Rejected(item));
    assert Steps(Do(t, a), a, 0) == Do(t, a);
  }

  /** How many own steps a `TryEnqueue` has left at most. */
  function TryRank<T>(pc: ProducerPc<T>): nat {
    match pc
    case LoadClosed(_, _) => 7
    case LoadHead(_, _) => 6
    case LoadSeq(_, _, _) => 5
    case Cas(_, _, _) => 4
    case WriteData(_, _) => 3
    case Publish(_, _) => 2
    case Notify(_, _) => 1
    case _ => 0
  }

  /** The producer is inside a call that never starts over. */
  predicate Trying<T>(pc: ProducerPc<T>) {
    && !pc.ReloadHead?
    && (pc.LoadClosed? || pc.LoadHead? || pc.LoadSeq? || pc.Cas? ==> pc.once)
  }

  lemma TryStep<T>(s: State<T>, a: Action<T>, p: nat)
    requires Shape(s) && p in s.producers && Trying(s.producers[p])
    requires !s.producers[p].Returned()
    ensures var t := Do(s, a);
            && p in t.producers && Trying(t.producers[p])
            && TryRank(t.producers[p]) + (if a == ProducerStep(p) then 1 else 0) <= TryRank(s.producers[p])
            && (a != ProducerStep(p) ==> t.producers[p] == s.producers[p])
  {
  }

  ghost predicate ReturnsWithin<T>(s: State<T>, schedule: seq<Action<T>>, p: nat)
    requires Shape(s)
  {
    exists k :: 0 <= k <= |schedule| && p in After(s, schedule[..k]).producers
                && After(s, schedule[..k]).producers[p].Returned()
  }

  lemma {:induction false} TryAdvances<T>(s: State<T>, schedule: seq<Action<T>>, p: nat)
    requires Shape(s) && p in s.producers && Trying(s.producers[p]) && !ReturnsWithin(s, schedule, p)
    ensures var t := After(s, schedule);
            && p in t.producers && Trying(t.producers[p]) && !t.producers[p].Returned()
            && TryRank(t.producers[p]) + StepsOf(schedule, p) <= TryRank(s.producers[p])
  {
    assert schedule[..|schedule|] == schedule;
    if schedule != [] {
      var n := |schedule| - 1;
      forall k: nat | k <= n
        ensures schedule[..n][..k] == schedule[..k]
      {
      }
      assert !ReturnsWithin(s, schedule[..n], p);
      TryAdvances(s, schedule[..n], p);
      TryStep(After(s, schedule[..n]), schedule[n], p);
    }
  }

  /** `TryEnqueue` returns within seven steps of its own, whatever the others do. */
  lemma TryEnqueueReturns<T>(s: State<T>, schedule: seq<Action<T>>, p: nat, item: T)
    requires Shape(s) && p in s.producers && s.producers[p] == LoadClosed(item, true)
    requires StepsOf(schedule, p) >= 7
    ensures ReturnsWithin(s, schedule, p)
  {
    if !ReturnsWithin(s, schedule, p) { TryAdvances(s, schedule, p); }
  }

  // ---- Close ----

  /** Every closer past its first step has seen or set the flag. */
  ghost predicate ClosersDone<T>(s: State<T>) {
    forall c :: c in s.closers && s.closers[c] != SwapClosed ==> s.closed
  }

  lemma ClosersDoneKept<T>(s: State<T>, a: Action<T>)
    requires Shape(s) && ClosersDone(s)
    ensures ClosersDone(Do(s, a)) && (s.closed ==> Do(s, a).closed)
  {
  }

  /** After every schedule: a `Close` that has taken a step, and so one that has returned, means a closed queue. */
  lemma {:induction false} CloseMeansClosed<T>(capacity: nat, zero: T, schedule: seq<Action<T>>, c: nat)
    requires NewCapacity(capacity)
    ensures ClosersDone(After(Init(capacity, zero), schedule))
    ensures var s := After(Init(capacity, zero), schedule);
            c in s.closers && s.closers[c] != SwapClosed ==> s.closed
  {
    if schedule != [] {
      CloseMeansClosed(capacity, zero, schedule[..|schedule| - 1], c);
      ClosersDoneKept(After(Init(capacity, zero), schedule[..|schedule| - 1]), schedule[|schedule| - 1]);
    }
  }

  /** On an open queue a `Close` that runs alone sets the flag, then puts a token into the channel. */
  lemma AloneCloses<T>(s: State<T>, c: nat)
    requires Shape(s) && !s.closed && (c in s.closers ==> s.closers[c].Returned?)
    ensures Steps(Do(s, CallClose(c)), CloserStep(c), 2)
         == s.(closed := true, token := true, closers := s.closers[c := Returned])
  {
    var a: Action<T> := CloserStep(c);
    var s1 := s.(closers := s.closers[c := SwapClosed]);
    var s2 := s.(closed := true, closers := s.closers[c := NotifyClosed]);
    var s3 := s.(closed := true, token := true, closers := s.closers[c := Returned]);
    assert Do(s, CallClose(c)) == s1;
    assert Do(s1, a).closers == s2.closers && Do(s1, a) == s2;
    assert Do(s2, a).closers == s3.closers && Do(s2, a) == s3;
    assert Steps(s3, a, 0) == s3;
    assert Steps(s2, a, 1) == s3;
  }

  /** The flag stays. */
  lemma {:induction false} ClosedStays<T>(s: State<T>, schedule: seq<Action<T>>)
    requires Shape(s) && s.closed
    ensures After(s, schedule).closed
  {
    if schedule != [] { ClosedStays(s, schedule[..|schedule| - 1]); }
  }

  /** Whatever has happened since the queue was closed, a call that starts now is refused by its first step. */
  lemma RefusedOnceClosed<T>(s: State<T>, schedule: seq<Action<T>>, p: nat, item: T, once: bool)
    requires Shape(s) && s.closed && ProducerFree(After(s, schedule), p)
    ensures var t := After(s, schedule);
            Steps(Do(t, Call(p, item, once)), ProducerStep(p), 1) == At(t, p, Rejected(item))
  {
    ClosedStays(s, schedule);
    var t := After(s, schedule);
    var a: Action<T> := ProducerStep(p);
    Called(t, p, item, once);
    LoadStep(t, p, LoadClosed(item, once));
    assert Steps(At(t, p, Rejected(item)), a, 0) == At(t, p, Rejected(item));
  }

  // ---- Dequeue ----

  /** A scan ends at the limit or at a slot it sees unpublished, and nowhere else. */
  lemma ScanGoesOn<T>(s: State<T>)
    requires Shape(s) && s.consumer.Scan?
    ensures StepConsumer(s) == s.(consumer := StepConsumer(s).consumer)
    ensures var c := s.consumer;
            StepConsumer(s).consumer ==
              if |c.batch| < c.limit && Published(s, c.base + |c.batch|)
              then ReadSlot(c.limit, c.spins, c.base, c.batch)
              else if c.batch == [] then TestClosed(c.limit, c.spins)
              else StoreTail(c.base, c.batch)
  {
  }

  lemma ThreeSteps<T>(s: State<T>, a: Action<T>, s1: State<T>, s2: State<T>, s3: State<T>)
    requires Shape(s) && Do(s, a) == s1 && Shape(s1) && Do(s1, a) == s2 && Shape(s2) && Do(s2, a) == s3
    ensures Steps(s, a, 3) == s3
  {
    ShapeKept(s2, a);
    assert Steps(s3, a, 0) == s3;
    assert Steps(s2, a, 1) == s3;
    assert Steps(s1, a, 2) == s3;
  }

  lemma ReadSteps<T>(s: State<T>, limit: nat, spins: nat, base: nat, batch: seq<T>)
    requires Shape(s)
    ensures var read := batch + [s.data[Slot(s, base + |batch|)]];
            && StepConsumer(s.(consumer := ReadSlot(limit, spins, base, batch)))
               == s.(consumer := ClearSlot(limit, spins, base, read))
            && StepConsumer(s.(consumer := ClearSlot(limit, spins, base, read)))
               == s.(consumer := Scan(limit, spins, base, read), data := s.data[Slot(s, base + |batch|) := s.zero])
  {
  }

  /** The state after one more slot has been read and emptied. */
  function OneMore<T>(s: State<T>): State<T>
    requires Shape(s) && s.consumer.Scan?
  {
    var c := s.consumer;
    var i := Slot(s, c.base + |c.batch|);
    s.(consumer := Scan(c.limit, c.spins, c.base, c.batch + [s.data[i]]), data := s.data[i := s.zero])
  }

  /** Reading one slot: three steps. */
  lemma ReadOne<T>(s: State<T>)
    requires Shape(s) && s.consumer.Scan? && |s.consumer.batch| < s.consumer.limit
    requires Published(s, s.consumer.base + |s.consumer.batch|)
    ensures Steps(s, ConsumerStep, 3) == OneMore(s)
  {
    var c := s.consumer;
    var n := c.base + |c.batch|;
    var read := c.batch + [s.data[Slot(s, n)]];
    ScanGoesOn(s);
    ReadSteps(s, c.limit, c.spins, c.base, c.batch);
    ThreeSteps(s, ConsumerStep, s.(consumer := ReadSlot(c.limit, c.spins, c.base, c.batch)),
      s.(consumer := ClearSlot(c.limit, c.spins, c.base, read)), OneMore(s));
  }

  ghost predicate AllPublished<T>(s: State<T>, n: nat)
    requires Shape(s)
  {
    forall p :: s.tail <= p < s.tail + n ==> Published(s, p)
  }

  /** The `n` oldest positions are ready, and no more of them than the caller's slice takes. */
  ghost predicate Ready<T>(s: State<T>, n: nat, limit: nat)
    requires Shape(s)
  {
    && n <= limit
    && AllPublished(s, n)
    && (n == limit || !Published(s, s.tail + n))
  }

  /** The `n` oldest positions hold their items. */
  ghost predicate Holding<T>(s: State<T>, n: nat)
    requires Shape(s) && |s.log| == s.head
  {
    && n <= s.capacity && s.tail + n <= s.head
    && forall p :: s.tail <= p < s.tail + n ==> s.data[Slot(s, p)] == s.log[p]
  }

  /** After `j` of `n` slots: what is in the batch, what is cleared, and that nothing else changed. */
  ghost predicate Reading<T>(s: State<T>, t: State<T>, limit: nat, n: nat, j: nat)
    requires Shape(s) && |s.log| == s.head && s.tail + n <= s.head && j <= n
  {
    && t == s.(consumer := Scan(limit, 0, s.tail, s.log[s.tail..s.tail + j]), data := t.data)
    && |t.data| == s.capacity
    && (forall p :: s.tail <= p < s.tail + j ==> t.data[Slot(s, p)] == s.zero)
    && (forall p :: s.tail + j <= p < s.tail + n ==> t.data[Slot(s, p)] == s.log[p])
  }

  lemma Begin<T>(s: State<T>, limit: nat)
    requires Shape(s) && s.consumer.Idle? && limit > 0
    ensures Steps(Do(s, CallDequeue(limit)), ConsumerStep, 1) == s.(consumer := Scan(limit, 0, s.tail, []))
  {
    var a: Action<T> := ConsumerStep;
    var s1 := s.(consumer := LoadTail(limit, 0));
    var s2 := s.(consumer := Scan(limit, 0, s.tail, []));
    assert Do(s, CallDequeue(limit)) == s1 && Do(s1, a) == s2;
    assert Steps(s2, a, 0) == s2;
  }

  lemma PublishedBelowHead<T>(s: State<T>, n: nat)
    requires Shape(s) && Counters(s) && Slots(s) && s.consumer.Idle?
    requires AllPublished(s, n)
    ensures s.tail + n <= s.head
  {
    HeadNotPublished(s);
  }

  /** What is ready is stored. */
  lemma ReadyIsHeld<T>(s: State<T>, n: nat)
    requires Shape(s) && Counters(s) && Stored(s) && s.consumer.Idle? && s.tail + n <= s.head
    requires AllPublished(s, n)
    ensures Holding(s, n)
  {
  }

  lemma OtherSlots<T>(s: State<T>, n: nat, j: nat)
    requires Shape(s) && j < n <= s.capacity
    ensures forall p :: s.tail <= p < s.tail + n && p != s.tail + j ==> Slot(s, p) != Slot(s, s.tail + j)
  {
    forall p | s.tail <= p < s.tail + n && p != s.tail + j
      ensures Slot(s, p) != Slot(s, s.tail + j)
    {
      if p < s.tail + j {
        WithinLapDistinct(p, s.tail + j, s.capacity);
      } else {
        WithinLapDistinct(s.tail + j, p, s.capacity);
      }
    }
  }

  lemma ReadMore<T>(s: State<T>, t: State<T>, limit: nat, n: nat, j: nat)
    requires Shape(s) && Shape(t) && |s.log| == s.head && s.tail + n <= s.head && j < n <= s.capacity
    requires Reading(s, t, limit, n, j)
    ensures Reading(s, OneMore(t), limit, n, j + 1)
  {
    OtherSlots(s, n, j);
    assert s.log[s.tail..s.tail + j] + [s.log[s.tail + j]] == s.log[s.tail..s.tail + (j + 1)];
  }

  lemma {:induction false} ReadMany<T>(s: State<T>, start: State<T>, limit: nat, n: nat, j: nat, k: nat)
    requires Shape(s) && |s.log| == s.head && s.tail + n <= s.head && j <= n <= limit && n <= s.capacity
    requires Shape(start) && Reading(s, start, limit, n, 0) && k == 3 * j
    requires AllPublished(s, n)
    ensures Reading(s, Steps(start, ConsumerStep, k), limit, n, j)
    decreases j
  {
    if j == 0 {
      assert Steps(start, ConsumerStep, k) == start;
    } else {
      ReadMany(s, start, limit, n, j - 1, k - 3);
      ReadLast(s, start, k - 3, limit, n, j - 1);
    }
  }

  lemma ReadLast<T>(s: State<T>, start: State<T>, k: nat, limit: nat, n: nat, j: nat)
    requires Shape(s) && |s.log| == s.head && s.tail + n <= s.head && j < n <= limit && n <= s.capacity
    requires Shape(start) && Reading(s, Steps(start, ConsumerStep, k), limit, n, j) && AllPublished(s, n)
    ensures Reading(s, Steps(start, ConsumerStep, k + 3), limit, n, j + 1)
  {
    var t := Steps(start, ConsumerStep, k);
    ReadMore(s, t, limit, n, j);
    ReadJust(s, t, limit, j);
    Join(start, ConsumerStep, k, t, 3, OneMore(t));
  }

  lemma ReadJust<T>(s: State<T>, t: State<T>, limit: nat, j: nat)
    requires Shape(s) && Shape(t) && Published(s, s.tail + j) && t.seqs == s.seqs && t.capacity == s.capacity
    requires t.consumer.Scan? && t.consumer.base == s.tail && |t.consumer.batch| == j < limit == t.consumer.limit
    ensures Steps(t, ConsumerStep, 3) == OneMore(t)
  {
    assert Published(t, s.tail + j);
    ReadOne(t);
  }

  /** Releasing the slots of a batch. */
  lemma {:induction false} ReleaseAll<T>(s: State<T>, i: nat)
    requires Shape(s) && s.consumer.Release? && i + 1 == |s.consumer.batch| - s.consumer.i
    ensures var t := Steps(s, ConsumerStep, i + 1);
            t == s.(consumer := Idle, seqs := t.seqs, batches := s.batches + [s.consumer.batch])
    decreases i
  {
    var a: Action<T> := ConsumerStep;
    ShapeKept(s, a);
    if i > 0 {
      ReleaseAll(Do(s, a), i - 1);
    } else {
      assert Steps(Do(s, a), a, 0) == Do(s, a);
    }
  }

  lemma StoreStep<T>(t: State<T>, base: nat, batch: seq<T>)
    requires Shape(t)
    ensures StepConsumer(t.(consumer := StoreTail(base, batch)))
         == t.(consumer := Release(base, batch, 0), tail := base + |batch|)
  {
  }

  lemma EndOfScan<T>(t: State<T>, limit: nat, base: nat, batch: seq<T>, n: nat)
    requires Shape(t) && t.consumer == Scan(limit, 0, base, batch) && batch != [] && n == |batch|
    requires |batch| >= limit || !Published(t, base + |batch|)
    ensures var u := Steps(t, ConsumerStep, 2 + n);
            u == t.(consumer := Idle, tail := base + n, seqs := u.seqs, batches := t.batches + [batch])
  {
    var a: Action<T> := ConsumerStep;
    var t1 := t.(consumer := StoreTail(base, batch));
    var t2 := t.(consumer := Release(base, batch, 0), tail := base + n);
    ScanGoesOn(t);
    StoreStep(t, base, batch);
    OneStep(t, a);
    OneStep(t1, a);
    Join(t, a, 1, t1, 1, t2);
    ReleaseAll(t2, n - 1);
    Join(t, a, 2, t2, n, Steps(t2, a, n));
  }

  /** The whole call, from its first load of the slots. */
  lemma WholeCall<T>(s: State<T>, start: State<T>, limit: nat, n: nat)
    requires Shape(s) && |s.log| == s.head && n > 0 && s.tail + n <= s.head && Ready(s, n, limit)
    requires start == s.(consumer := Scan(limit, 0, s.tail, [])) && Holding(s, n)
    ensures var t := Steps(start, ConsumerStep, 4 * n + 2);
            && t == s.(consumer := Idle, tail := s.tail + n, seqs := t.seqs, data := t.data,
                       batches := s.batches + [s.log[s.tail..s.tail + n]])
            && forall p :: s.tail <= p < s.tail + n ==> t.data[Slot(s, p)] == s.zero
  {
    assert s.log[s.tail..s.tail + 0] == [];
    ReadMany(s, start, limit, n, n, 3 * n);
    AndEnd(s, start, 3 * n, limit, n);
    assert 3 * n + (2 + n) == 4 * n + 2;
  }

  /** A `Dequeue` that runs alone returns exactly the oldest ready items, as many as are ready up to the limit, in
      the order of their claims; their slots are emptied and handed back. */
  lemma AloneDequeues<T>(s: State<T>, limit: nat, n: nat)
    requires Inv(s) && s.consumer.Idle? && limit > 0 && n > 0 && Ready(s, n, limit)
    ensures var t := Steps(Do(s, CallDequeue(limit)), ConsumerStep, 4 * n + 3);
            && s.tail + n <= s.head
            && t.consumer.Idle? && t.batches == s.batches + [s.log[s.tail..s.tail + n]]
            && t.tail == s.tail + n && Released(t) == s.tail + n
            && t.head == s.head && t.log == s.log && t.closed == s.closed && t.token == s.token
            && forall p :: s.tail <= p < s.tail + n ==> t.data[Slot(s, p)] == s.zero
  {
    var start := s.(consumer := Scan(limit, 0, s.tail, []));
    PublishedBelowHead(s, n);
    ReadyIsHeld(s, n);
    Begin(s, limit);
    WholeCall(s, start, limit, n);
    var k := 4 * n + 2;
    Join(Do(s, CallDequeue(limit)), ConsumerStep, 1, start, k, Steps(start, ConsumerStep, k));
  }

  lemma AndEnd<T>(s: State<T>, start: State<T>, k: nat, limit: nat, n: nat)
    requires Shape(s) && |s.log| == s.head && n > 0 && s.tail + n <= s.head && Ready(s, n, limit)
    requires Shape(start) && Reading(s, Steps(start, ConsumerStep, k), limit, n, n)
    ensures var u := Steps(start, ConsumerStep, k + (2 + n));
            && u == s.(consumer := Idle, tail := s.tail + n, seqs := u.seqs, data := u.data,
                       batches := s.batches + [s.log[s.tail..s.tail + n]])
            && forall p :: s.tail <= p < s.tail + n ==> u.data[Slot(s, p)] == s.zero
  {
    var t := Steps(start, ConsumerStep, k);
    EndOfReading(s, t, limit, n);
    Join(start, ConsumerStep, k, t, 2 + n, Steps(t, ConsumerStep, 2 + n));
  }

  lemma EndOfReading<T>(s: State<T>, t: State<T>, limit: nat, n: nat)
    requires Shape(s) && |s.log| == s.head && n > 0 && s.tail + n <= s.head && Ready(s, n, limit)
    requires Reading(s, t, limit, n, n)
    ensures var u := Steps(t, ConsumerStep, 2 + n);
            u == t.(consumer := Idle, tail := s.tail + n, seqs := u.seqs,
                    batches := s.batches + [s.log[s.tail..s.tail + n]])
  {
    EndOfScan(t, limit, s.tail, s.log[s.tail..s.tail + n], n);
  }

  lemma EndSteps<T>(s: State<T>, limit: nat)
    requires Shape(s) && s.closed && s.tail == s.head
    ensures StepConsumer(s.(consumer := TestClosed(limit, 0))) == s.(consumer := RetestClosed(limit, 0))
    ensures StepConsumer(s.(consumer := RetestClosed(limit, 0))) == s.(consumer := LenTail(limit, 0))
    ensures StepConsumer(s.(consumer := LenTail(limit, 0))) == s.(consumer := LenHead(limit, 0, s.tail))
    ensures StepConsumer(s.(consumer := LenHead(limit, 0, s.tail))) == s.(consumer := Idle, batches := s.batches + [[]])
  {
  }

  lemma EmptyScan<T>(s: State<T>, limit: nat, spins: nat)
    requires Shape(s) && !Published(s, s.tail)
    ensures StepConsumer(s.(consumer := LoadTail(limit, spins))) == s.(consumer := Scan(limit, spins, s.tail, []))
    ensures StepConsumer(s.(consumer := Scan(limit, spins, s.tail, []))) == s.(consumer := TestClosed(limit, spins))
  {
  }

  /** On a closed queue from which everything claimed has been taken, `Dequeue` returns 0 after six steps. */
  lemma AloneEnds<T>(s: State<T>, limit: nat)
    requires Inv(s) && s.consumer.Idle? && limit > 0 && s.closed && s.tail == s.head
    ensures Steps(Do(s, CallDequeue(limit)), ConsumerStep, 6) == s.(batches := s.batches + [[]])
  {
    HeadNotPublished(s);
    ClosedRun(s, limit);
    assert Do(s, CallDequeue(limit)) == s.(consumer := LoadTail(limit, 0));
  }

  lemma ClosedRun<T>(s: State<T>, limit: nat)
    requires Shape(s) && s.closed && s.tail == s.head && !Published(s, s.tail)
    ensures Steps(s.(consumer := LoadTail(limit, 0)), ConsumerStep, 6)
         == s.(consumer := Idle, batches := s.batches + [[]])
  {
    var a: Action<T> := ConsumerStep;
    var s0, s3 := s.(consumer := LoadTail(limit, 0)), s.(consumer := RetestClosed(limit, 0));
    EmptyScan(s, limit, 0);
    EndSteps(s, limit);
    ThreeSteps(s0, a, s.(consumer := Scan(limit, 0, s.tail, [])), s.(consumer := TestClosed(limit, 0)), s3);
    ThreeSteps(s3, a, s.(consumer := LenTail(limit, 0)), s.(consumer := LenHead(limit, 0, s.tail)),
      s.(consumer := Idle, batches := s.batches + [[]]));
    StepsJoined(s0, a, 3, 3);
  }

  /** One round on an open queue with nothing ready. */
  lemma EmptyRound<T>(s: State<T>, limit: nat, spins: nat)
    requires Shape(s) && limit > 0 && !s.closed && !Published(s, s.tail)
    ensures Steps(s.(consumer := LoadTail(limit, spins)), ConsumerStep, 3)
         == s.(consumer := if spins < 3 then LoadTail(limit, spins + 1) else Wait(limit, spins))
  {
    EmptyScan(s, limit, spins);
    ThreeSteps(s.(consumer := LoadTail(limit, spins)), ConsumerStep, s.(consumer := Scan(limit, spins, s.tail, [])),
      s.(consumer := TestClosed(limit, spins)),
      s.(consumer := if spins < 3 then LoadTail(limit, spins + 1) else Wait(limit, spins)));
  }

  lemma TwoRounds<T>(s: State<T>, limit: nat, spins: nat)
    requires Shape(s) && limit > 0 && !s.closed && !Published(s, s.tail) && spins < 3
    ensures Steps(s.(consumer := LoadTail(limit, spins)), ConsumerStep, 6)
         == s.(consumer := if spins < 2 then LoadTail(limit, spins + 2) else Wait(limit, spins + 1))
  {
    EmptyRound(s, limit, spins);
    EmptyRound(s, limit, spins + 1);
    StepsJoined(s.(consumer := LoadTail(limit, spins)), ConsumerStep, 3, 3);
  }

  /** On an open queue with nothing ready, `Dequeue` looks four times, then waits for a token. */
  lemma AloneWaits<T>(s: State<T>, limit: nat)
    requires Shape(s) && s.consumer.Idle? && limit > 0 && !s.closed && !Published(s, s.tail)
    ensures Steps(Do(s, CallDequeue(limit)), ConsumerStep, 12) == s.(consumer := Wait(limit, 3))
  {
    var t := s.(consumer := LoadTail(limit, 0));
    assert Do(s, CallDequeue(limit)) == t;
    TwoRounds(s, limit, 0);
    TwoRounds(s, limit, 2);
    Join(t, ConsumerStep, 6, s.(consumer := LoadTail(limit, 2)), 6, s.(consumer := Wait(limit, 3)));
  }

  /** A waiting consumer sleeps without a token; with one it takes it and goes on. */
  lemma WaitTakesToken<T>(s: State<T>)
    requires Shape(s) && s.consumer.Wait?
    ensures !s.token ==> Do(s, ConsumerStep) == s
    ensures s.token ==>
              Do(s, ConsumerStep) == s.(token := false, consumer := RetestClosed(s.consumer.limit, s.consumer.spins))
  {
  }
}
