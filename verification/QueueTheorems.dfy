/** What the ring queue promises, over every schedule of any number of producers and closers. */
module QueueTheorems {
  import opened RingIndex
  import opened QueueProtocol
  import opened QueueInvariant
  import opened QueueSteps

  /** The bounds `New` imposes on the requested capacity. */
  function Clamp(capacity: int): (c: nat)
    ensures 2 <= c <= 65536
  {
    if capacity <= 1 then 2 else if capacity > 65536 then 65536 else capacity
  }

  /** The fields of a queue as `New` fills them. */
  class Ring<T> {
    var head: nat
    var tail: nat
    var mask: nat
    var closed: bool
    /** A token is in the notification channel. */
    var noticer: bool
    const sequence: array<nat>
    const data: array<T>

    /** The protocol state of a queue that no thread has touched yet. */
    ghost function Abstract(zero: T): State<T>
      reads this, sequence, data
    {
      State(mask + 1, zero, head, tail, closed, noticer, sequence[..], data[..], map[], map[], Idle, [], [])
    }

    /** `New` yields the initial state of the protocol; the capacity is the least power of two that is not
        below the clamped request. */
    constructor (capacity: int, zero: T)
      ensures IsPow2(mask + 1) && mask + 1 >= Clamp(capacity)
      ensures forall k: nat :: Clamp(capacity) <= Pow2(k) ==> mask + 1 <= Pow2(k)
      ensures fresh(sequence) && fresh(data) && Abstract(zero) == Init(mask + 1, zero)
    {
      var rounded := capacity;
      if rounded <= 1 {
        rounded := 2;
      } else if rounded > 65536 {
        rounded := 65536;
      }
      SmearRoundsUp(rounded);
      rounded := Smear(rounded - 1) + 1;
      head, tail, mask, closed, noticer := 0, 0, rounded - 1, false, false;
      sequence := new nat[rounded];
      data := new T[rounded](_ => zero);
      new;
      var i := 0;
      while i < rounded
        invariant i <= rounded
        invariant forall j :: 0 <= j < i ==> sequence[j] == j
        modifies sequence
      {
        sequence[i] := i;
        i := i + 1;
      }
    }
  }

  ghost predicate NewCapacity(capacity: nat) {
    capacity >= 2 && IsPow2(capacity)
  }

  // ---- first in, first out ----

  /** The items claimed and not handed to the caller's slice yet, oldest first. */
  function Pending<T>(s: State<T>): seq<T>
    requires |s.log| == s.head && s.tail <= s.head
  {
    s.log[s.tail..]
  }

  /** The concatenation of the returned batches is a prefix of the items in the order of their claims. */
  lemma FirstInFirstOut<T>(capacity: nat, zero: T, schedule: seq<Action<T>>)
    requires NewCapacity(capacity)
    ensures var s := After(Init(capacity, zero), schedule);
            |Flatten(s.batches)| <= |s.log| && Flatten(s.batches) == s.log[..|Flatten(s.batches)|]
  {
    InvAlways(capacity, zero, schedule);
  }

  ghost predicate ClaimsNow<T>(s: State<T>, a: Action<T>) {
    a.ProducerStep? && a.p in s.producers && s.producers[a.p].Cas? && s.producers[a.p].h == s.head
  }

  lemma ProducerRefines<T>(s: State<T>, p: nat)
    requires Shape(s) && Counters(s) && Slots(s) && Producers(s)
    ensures var t := StepProducer(s, p);
            && |t.log| == t.head && t.tail <= t.head
            && if ClaimsNow(s, ProducerStep(p)) then
                 Pending(t) == Pending(s) + [s.producers[p].item] && |Pending(s)| < s.capacity
               else
                 Pending(t) == Pending(s)
  {
    if p in s.producers {
      assert ProducerOk(s, s.producers[p]);
      if ClaimsNow(s, ProducerStep(p)) {
        var item := s.producers[p].item;
        assert StepProducer(s, p).log == s.log + [item];
        assert (s.log + [item])[s.tail..] == s.log[s.tail..] + [item];
      }
    }
  }

  lemma ConsumerRefines<T>(s: State<T>)
    requires Shape(s) && Counters(s) && ConsumerOk(s)
    ensures var t := StepConsumer(s);
            && |t.log| == t.head && t.tail <= t.head
            && if s.consumer.StoreTail? then s.consumer.batch + Pending(t) == Pending(s) && s.consumer.batch != []
               else Pending(t) == Pending(s)
  {
    if s.consumer.StoreTail? {
      var base, batch := s.consumer.base, s.consumer.batch;
      assert s.log[base..base + |batch|] + s.log[base + |batch|..] == s.log[base..];
    }
  }

  /** The ring refines an abstract queue: a won compare-and-swap appends one item to a queue that has
      room, the store to `tail` removes a batch from the front, and nothing else changes the contents. */
  lemma RefinesAbstractQueue<T>(s: State<T>, a: Action<T>)
    requires Inv(s)
    ensures |s.log| == s.head && s.tail <= s.head
    ensures |Do(s, a).log| == Do(s, a).head && Do(s, a).tail <= Do(s, a).head
    ensures var t := Do(s, a);
            if ClaimsNow(s, a) then Pending(t) == Pending(s) + [s.producers[a.p].item] && |Pending(s)| < s.capacity
            else if a.ConsumerStep? && s.consumer.StoreTail? then s.consumer.batch + Pending(t) == Pending(s)
                && s.consumer.batch != []
            else Pending(t) == Pending(s)
  {
    match a
    case ProducerStep(p) => ProducerRefines(s, p);
    case ConsumerStep => ConsumerRefines(s);
    case _ =>
  }

  /** The record of a call that was accepted. */
  datatype Receipt<T> = Receipt(position: nat, item: T)

  ghost predicate Accepts<T>(s: State<T>, a: Action<T>) {
    a.ProducerStep? && a.p in s.producers && s.producers[a.p].Notify?
  }

  /** All calls of all producers that were accepted, in the order in which they returned. */
  ghost function Receipts<T>(s: State<T>, schedule: seq<Action<T>>): seq<Receipt<T>>
    requires Shape(s)
  {
    if schedule == [] then []
    else
      var before, a := schedule[..|schedule| - 1], schedule[|schedule| - 1];
      var t := After(s, before);
      Receipts(s, before) + if Accepts(t, a) then [Receipt(t.producers[a.p].h, t.producers[a.p].item)] else []
  }

  /** Every receipt names a position of the log that holds its item and that nobody is still working on. */
  ghost predicate Honoured<T>(s: State<T>, receipts: seq<Receipt<T>>) {
    && (forall i :: 0 <= i < |receipts| ==>
          && receipts[i].position < |s.log|
          && s.log[receipts[i].position] == receipts[i].item)
    && (forall i, j :: 0 <= i < j < |receipts| ==> receipts[i].position != receipts[j].position)
    && (forall i, p :: 0 <= i < |receipts| && p in s.producers && !s.producers[p].Accepted? ==>
          !s.producers[p].Claims(receipts[i].position))
  }

  lemma LogGrows<T>(s: State<T>, a: Action<T>)
    requires Shape(s)
    ensures |s.log| <= |Do(s, a).log| && forall i :: 0 <= i < |s.log| ==> Do(s, a).log[i] == s.log[i]
  {
  }

  lemma ClaimsOnlyNew<T>(s: State<T>, a: Action<T>, p: nat, n: nat)
    requires Shape(s) && |s.log| == s.head && n < s.head
    requires p in Do(s, a).producers && !Do(s, a).producers[p].Accepted? && Do(s, a).producers[p].Claims(n)
    ensures p in s.producers && !s.producers[p].Accepted? && s.producers[p].Claims(n)
  {
  }

  lemma HonouredStep<T>(s: State<T>, a: Action<T>, receipts: seq<Receipt<T>>)
    requires Shape(s) && |s.log| == s.head && Honoured(s, receipts)
    ensures Honoured(Do(s, a), receipts)
  {
    LogGrows(s, a);
    forall i, p | 0 <= i < |receipts| && p in Do(s, a).producers && !Do(s, a).producers[p].Accepted?
      ensures !Do(s, a).producers[p].Claims(receipts[i].position)
    {
      if Do(s, a).producers[p].Claims(receipts[i].position) { ClaimsOnlyNew(s, a, p, receipts[i].position); }
    }
  }

  lemma HonouredAccept<T>(s: State<T>, p: nat, receipts: seq<Receipt<T>>)
    requires Shape(s) && |s.log| == s.head && Producers(s) && SingleClaim(s) && Honoured(s, receipts)
    requires Accepts(s, ProducerStep(p))
    ensures Honoured(Do(s, ProducerStep(p)), receipts + [Receipt(s.producers[p].h, s.producers[p].item)])
  {
    var pc := s.producers[p];
    HonouredStep(s, ProducerStep(p), receipts);
    assert ProducerOk(s, pc) && pc.Claims(pc.h);
  }

  /** Every accepted call, of whichever producer, got its own position, and its item is there; positions are
      never shared, so no item is delivered twice. */
  lemma {:induction false} AcceptedOnce<T>(capacity: nat, zero: T, schedule: seq<Action<T>>)
    requires NewCapacity(capacity)
    ensures Honoured(After(Init(capacity, zero), schedule), Receipts(Init(capacity, zero), schedule))
  {
    if schedule != [] {
      var before, a := schedule[..|schedule| - 1], schedule[|schedule| - 1];
      var s, receipts := After(Init(capacity, zero), before), Receipts(Init(capacity, zero), before);
      AcceptedOnce(capacity, zero, before);
      InvAlways(capacity, zero, before);
      if Accepts(s, a) { HonouredAccept(s, a.p, receipts); } else { HonouredStep(s, a, receipts); }
    }
  }

  // ---- bounds, slot life cycle, exclusive access ----

  /** Never more than a lap of unreleased claims; no returned batch exceeds the capacity. */
  lemma Bounded<T>(capacity: nat, zero: T, schedule: seq<Action<T>>)
    requires NewCapacity(capacity)
    ensures var s := After(Init(capacity, zero), schedule);
            && Released(s) <= s.tail <= s.head <= Released(s) + capacity
            && forall i :: 0 <= i < |s.batches| ==> |s.batches[i]| <= capacity
  {
    InvAlways(capacity, zero, schedule);
  }

  /** A sequence number only moves `p` to `p + 1`, by the one producer that claimed `p`, or `p + 1` to
      `p + capacity`, by the consumer, for the oldest unreleased `p`. */
  lemma SlotLifeCycle<T>(s: State<T>, a: Action<T>, i: nat)
    requires Inv(s) && i < s.capacity && Do(s, a).seqs[i] != s.seqs[i]
    ensures exists p: nat ::
              && Slot(s, p) == i
              && Released(s) <= p < s.head
              && ((s.seqs[i] == p && Do(s, a).seqs[i] == p + 1 && a.ProducerStep? && a.p in s.producers
                  && s.producers[a.p].Owns(p))
                  || (s.seqs[i] == p + 1 && Do(s, a).seqs[i] == p + s.capacity && a == ConsumerStep
                      && p == Released(s)))
  {
    if a.ProducerStep? {
      var pc := s.producers[a.p];
      assert ProducerOk(s, pc);
      assert pc.Owns(pc.h) && Slot(s, pc.h) == i;
    } else {
      assert SlotOk(s, Released(s)) && Slot(s, Released(s)) == i;
    }
  }

  /** The slot whose data the next step of a producer writes. */
  function ProducerTouches<T>(s: State<T>, p: nat): set<nat>
    requires Shape(s)
  {
    if p in s.producers && s.producers[p].WriteData? then {Slot(s, s.producers[p].h)} else {}
  }

  /** The slot whose data the next step of the consumer reads or clears. */
  function ConsumerTouches<T>(s: State<T>): set<nat>
    requires Shape(s)
  {
    match s.consumer
    case ReadSlot(_, _, base, batch) => {Slot(s, base + |batch|)}
    case ClearSlot(_, _, _, _) => {ConsumerSlot(s)}
    case _ => {}
  }

  lemma ProducersApart<T>(s: State<T>, p: nat, q: nat)
    requires Inv(s) && p != q
    ensures ProducerTouches(s, p) !! ProducerTouches(s, q)
  {
    if ProducerTouches(s, p) != {} && ProducerTouches(s, q) != {} {
      var h := s.producers[p].h;
      assert ProducerOk(s, s.producers[p]) && s.producers[p].Claims(h);
      assert ProducerOk(s, s.producers[q]) && s.producers[q].Claims(s.producers[q].h);
      OtherSlots(s, h);
    }
  }

  lemma ConsumerApart<T>(s: State<T>, p: nat)
    requires Inv(s)
    ensures ProducerTouches(s, p) !! ConsumerTouches(s)
  {
    if ProducerTouches(s, p) != {} {
      var h := s.producers[p].h;
      assert ProducerOk(s, s.producers[p]);
      OtherSlots(s, h);
      if s.consumer.ClearSlot? { assert SlotOk(s, s.consumer.base + |s.consumer.batch| - 1); }
    }
  }

  /** No two threads are ever about to access the data of the same slot. */
  lemma NoDataRace<T>(capacity: nat, zero: T, schedule: seq<Action<T>>, p: nat, q: nat)
    requires NewCapacity(capacity)
    ensures var s := After(Init(capacity, zero), schedule);
            && (p != q ==> ProducerTouches(s, p) !! ProducerTouches(s, q))
            && ProducerTouches(s, p) !! ConsumerTouches(s)
  {
    InvAlways(capacity, zero, schedule);
    var s := After(Init(capacity, zero), schedule);
    if p != q { ProducersApart(s, p, q); }
    ConsumerApart(s, p);
  }

  // ---- refusals ----

  ghost predicate Full<T>(s: State<T>) {
    s.head == Released(s) + s.capacity
  }

  /** The ring was full at one instant since the first `i` actions. */
  ghost predicate FullSince<T>(s: State<T>, schedule: seq<Action<T>>, i: nat)
    requires Shape(s)
  {
    exists k :: i <= k <= |schedule| && Full(After(s, schedule[..k]))
  }

  lemma FullSinceExtends<T>(s: State<T>, schedule: seq<Action<T>>, i: nat)
    requires Shape(s) && |schedule| > 0 && FullSince(s, schedule[..|schedule| - 1], i)
    ensures FullSince(s, schedule, i)
  {
    var before := schedule[..|schedule| - 1];
    var k :| i <= k <= |before| && Full(After(s, before[..k]));
    assert before[..k] == schedule[..k];
  }

  ghost predicate Reloading<T>(s: State<T>, p: nat) {
    p in s.producers && s.producers[p].ReloadHead?
  }

  lemma EntersReload<T>(s: State<T>, a: Action<T>, p: nat)
    requires Shape(s) && Counters(s) && Slots(s) && Producers(s)
    requires !Reloading(s, p) && Reloading(Do(s, a), p)
    ensures Full(s)
  {
    assert a == ProducerStep(p);
    assert ProducerOk(s, s.producers[p]);
    MatchMeansFree(s, s.producers[p].h);
  }

  /** A producer that saw a smaller sequence number met a full ring since any moment at which it had not seen
      it yet, whatever its second look says. */
  lemma {:induction false} ReloadMeansFull<T>(capacity: nat, zero: T, schedule: seq<Action<T>>, p: nat, i: nat)
    requires NewCapacity(capacity) && i <= |schedule|
    requires !Reloading(After(Init(capacity, zero), schedule[..i]), p)
    requires Reloading(After(Init(capacity, zero), schedule), p)
    ensures FullSince(Init(capacity, zero), schedule, i)
  {
    assert schedule[..|schedule|] == schedule;
    if i < |schedule| {
      var before := schedule[..|schedule| - 1];
      var s := After(Init(capacity, zero), before);
      assert before[..i] == schedule[..i];
      if Reloading(s, p) {
        ReloadMeansFull(capacity, zero, before, p, i);
      } else {
        InvAlways(capacity, zero, before);
        EntersReload(s, schedule[|schedule| - 1], p);
        assert before[..|before|] == before;
        assert Full(After(Init(capacity, zero), before[..|before|]));
      }
      FullSinceExtends(Init(capacity, zero), schedule, i);
    }
  }

  /** `Enqueue` returns false only if the queue is closed, or if `capacity` positions were claimed and
      unreleased at one instant during the call: since any moment `i` at which the producer had no call. */
  lemma RefusalMeansClosedOrFull<T>(capacity: nat, zero: T, schedule: seq<Action<T>>, p: nat, i: nat)
    requires NewCapacity(capacity)
    requires i <= |schedule| && ProducerFree(After(Init(capacity, zero), schedule[..i]), p)
    requires var s := After(Init(capacity, zero), schedule);
             && p in s.producers && !s.producers[p].Rejected? && StepProducer(s, p).producers[p].Rejected?
             && (s.producers[p].LoadClosed? || s.producers[p].LoadSeq? || s.producers[p].Cas? ==> !s.producers[p].once)
    ensures After(Init(capacity, zero), schedule).closed || FullSince(Init(capacity, zero), schedule, i)
  {
    RefusingStep(After(Init(capacity, zero), schedule), p);
    if Reloading(After(Init(capacity, zero), schedule), p) { ReloadMeansFull(capacity, zero, schedule, p, i); }
  }

  /** The two places where `Enqueue` can give up. */
  lemma RefusingStep<T>(s: State<T>, p: nat)
    requires Shape(s) && p in s.producers && !s.producers[p].Rejected? && StepProducer(s, p).producers[p].Rejected?
    requires s.producers[p].LoadClosed? || s.producers[p].LoadSeq? || s.producers[p].Cas? ==> !s.producers[p].once
    ensures s.closed || Reloading(s, p)
  {
  }

  // ---- a larger sequence number ----

  lemma Extend<T>(s: State<T>, schedule: seq<Action<T>>, a: Action<T>) returns (longer: seq<Action<T>>)
    requires Shape(s)
    ensures After(s, longer) == Do(After(s, schedule), a)
  {
    longer := schedule + [a];
    assert longer[..|schedule|] == schedule;
  }

  /** A step that only loads. */
  lemma LoadStep<T>(t: State<T>, p: nat, a: ProducerPc<T>)
    requires Shape(t) && (a.LoadClosed? || a.LoadHead? || a.LoadSeq?)
    ensures Do(At(t, p, a), ProducerStep(p)) == At(t, p, NextPc(t, a))
  {
    var s := At(t, p, a);
    assert s.producers[p := NextPc(t, a)] == t.producers[p := NextPc(t, a)];
    assert NextPc(s, a) == NextPc(t, a);
  }

  /** Producer `p` comes to the compare-and-swap on an empty ring. */
  lemma Approach<T>(s: State<T>, schedule: seq<Action<T>>, p: nat, item: T) returns (longer: seq<Action<T>>)
    requires Shape(s)
    requires var t := After(s, schedule);
             t.head == 0 && !t.closed && t.seqs[0] == 0 && ProducerFree(t, p) && Slot(t, 0) == 0
    ensures var t := After(s, schedule);
            After(s, longer) == At(t, p, Cas(item, false, 0))
  {
    var t := After(s, schedule);
    longer := Extend(s, schedule, CallEnqueue(p, item));
    longer := Extend(s, longer, ProducerStep(p));
    longer := Extend(s, longer, ProducerStep(p));
    longer := Extend(s, longer, ProducerStep(p));
    LoadStep(t, p, LoadClosed(item, false));
    LoadStep(t, p, LoadHead(item, false));
    LoadStep(t, p, LoadSeq(item, false, 0));
  }

  /** Producer `p` claims position 0 and publishes it. */
  lemma Overtake<T>(s: State<T>, schedule: seq<Action<T>>, p: nat, item: T) returns (longer: seq<Action<T>>)
    requires Shape(s)
    requires var t := After(s, schedule);
             t.head == 0 && p in t.producers && t.producers[p] == Cas(item, false, 0) && Slot(t, 0) == 0
    ensures var t, u := After(s, schedule), After(s, longer);
            u.seqs[0] == 1 && forall q :: q != p && q in t.producers ==>
              q in u.producers && u.producers[q] == t.producers[q]
  {
    longer := Extend(s, schedule, ProducerStep(p));
    longer := Extend(s, longer, ProducerStep(p));
    longer := Extend(s, longer, ProducerStep(p));
  }

  /** A run in which a producer meets a sequence number above the head that it loaded. */
  lemma LargerNumberIsReachable<T>(capacity: nat, zero: T) returns (schedule: seq<Action<T>>)
    requires NewCapacity(capacity)
    ensures var s := After(Init(capacity, zero), schedule);
            && 0 in s.producers && s.producers[0].LoadSeq?
            && s.seqs[Slot(s, s.producers[0].h)] > s.producers[0].h
  {
    var s := Init(capacity, zero);
    FirstLapSlot(0, capacity);
    schedule := Extend(s, [], CallEnqueue(0, zero));
    schedule := Extend(s, schedule, ProducerStep(0));
    schedule := Extend(s, schedule, ProducerStep(0));
    schedule := Approach(s, schedule, 1, zero);
    schedule := Overtake(s, schedule, 1, zero);
  }

  // ---- wakeups ----

  /** The wakeup of a consumer that is going to sleep is never lost. */
  lemma NoLostWakeup<T>(capacity: nat, zero: T, schedule: seq<Action<T>>)
    requires NewCapacity(capacity)
    ensures var s := After(Init(capacity, zero), schedule);
            && (Sleepy(s) && Published(s, s.tail) ==> s.token || Notifying(s, s.tail))
            && (s.consumer.Wait? && s.closed ==> s.token || Closing(s))
  {
    InvAlways(capacity, zero, schedule);
  }

  /** Producer `p` is on its way to notify the consumer about position `n`. */
  predicate Helps<T>(pc: ProducerPc<T>, n: nat) {
    (pc.WriteData? || pc.Publish? || pc.Notify?) && pc.h == n
  }

  /** A consumer that sleeps without a token while an item is claimed has a helper. */
  lemma SleeperHasHelper<T>(capacity: nat, zero: T, schedule: seq<Action<T>>)
    requires NewCapacity(capacity)
    ensures var s := After(Init(capacity, zero), schedule);
            && (s.consumer.Wait? && !s.token && s.tail < s.head ==>
                  exists p :: p in s.producers && Helps(s.producers[p], s.tail))
            && (s.consumer.Wait? && !s.token && s.closed ==> Closing(s))
  {
    var s := After(Init(capacity, zero), schedule);
    InvAlways(capacity, zero, schedule);
    if s.consumer.Wait? && !s.token && s.tail < s.head {
      assert SlotOk(s, s.tail);
      if Unpublished(s, s.tail) {
        assert Owned(s, s.tail);
        var p :| p in s.producers && s.producers[p].Owns(s.tail);
        assert Helps(s.producers[p], s.tail);
      } else {
        var p :| p in s.producers && s.producers[p].Notify? && s.producers[p].h == s.tail;
        assert Helps(s.producers[p], s.tail);
      }
    }
  }

  /** A consumer asleep without a token, with nobody else mid-call, means an empty open queue:
      everything ever accepted has been delivered. */
  lemma AsleepMeansDrained<T>(capacity: nat, zero: T, schedule: seq<Action<T>>)
    requires NewCapacity(capacity)
    requires var s := After(Init(capacity, zero), schedule);
             && s.consumer.Wait? && !s.token
             && (forall p :: p in s.producers ==> s.producers[p].Returned())
             && (forall c :: c in s.closers ==> s.closers[c] == Returned)
    ensures var s := After(Init(capacity, zero), schedule);
            !s.closed && Flatten(s.batches) == s.log
  {
    var s := After(Init(capacity, zero), schedule);
    SleeperHasHelper(capacity, zero, schedule);
    InvAlways(capacity, zero, schedule);
    assert s.log[..s.head] == s.log;
  }

  /** How many steps of its own a helper still needs until the token is there. */
  function StepsLeft<T>(pc: ProducerPc<T>): nat {
    if pc.WriteData? then 3 else if pc.Publish? then 2 else if pc.Notify? then 1 else 0
  }

  function StepsOf<T>(schedule: seq<Action<T>>, p: nat): nat {
    if schedule == [] then 0
    else StepsOf(schedule[..|schedule| - 1], p) + if schedule[|schedule| - 1] == ProducerStep(p) then 1 else 0
  }

  ghost predicate TokenArrives<T>(s: State<T>, schedule: seq<Action<T>>)
    requires Shape(s)
  {
    exists k :: 0 <= k <= |schedule| && After(s, schedule[..k]).token
  }

  lemma HelperStep<T>(s: State<T>, a: Action<T>, p: nat)
    requires Shape(s) && s.consumer.Wait? && !s.token && p in s.producers && StepsLeft(s.producers[p]) > 0
    requires !Do(s, a).token
    ensures var t := Do(s, a);
            && t.consumer == s.consumer
            && p in t.producers
            && StepsLeft(t.producers[p]) > 0
            && StepsLeft(t.producers[p]) + (if a == ProducerStep(p) then 1 else 0) == StepsLeft(s.producers[p])
  {
  }

  lemma NoTokenYet<T>(s: State<T>, schedule: seq<Action<T>>, k: nat)
    requires Shape(s) && !TokenArrives(s, schedule) && k <= |schedule|
    ensures !After(s, schedule[..k]).token
  {
  }

  lemma NoTokenInPrefix<T>(s: State<T>, schedule: seq<Action<T>>, k: nat)
    requires Shape(s) && !TokenArrives(s, schedule) && k <= |schedule|
    ensures !TokenArrives(s, schedule[..k])
  {
    forall j: nat | j <= k
      ensures !After(s, schedule[..k][..j]).token
    {
      assert schedule[..k][..j] == schedule[..j];
      NoTokenYet(s, schedule, j);
    }
  }

  /** Without a token the sleeper sleeps on, and the helper only advances by its own steps. */
  lemma {:induction false} HelperAdvances<T>(s: State<T>, schedule: seq<Action<T>>, p: nat)
    requires Shape(s) && s.consumer.Wait? && p in s.producers && StepsLeft(s.producers[p]) > 0
    requires !TokenArrives(s, schedule)
    ensures var t := After(s, schedule);
            && t.consumer == s.consumer
            && p in t.producers
            && StepsLeft(t.producers[p]) > 0
            && StepsLeft(t.producers[p]) + StepsOf(schedule, p) == StepsLeft(s.producers[p])
  {
    if schedule != [] {
      var n := |schedule| - 1;
      NoTokenYet(s, schedule, n);
      NoTokenInPrefix(s, schedule, n);
      NoTokenYet(s, schedule, n + 1);
      assert schedule[..n + 1] == schedule;
      HelperAdvances(s, schedule[..n], p);
      HelperStep(After(s, schedule[..n]), schedule[n], p);
    }
  }

  /** Whatever else is scheduled, three steps of the helper wake the sleeper. */
  lemma SleeperIsWoken<T>(s: State<T>, schedule: seq<Action<T>>, p: nat)
    requires Shape(s) && s.consumer.Wait? && p in s.producers && Helps(s.producers[p], s.tail)
    requires StepsOf(schedule, p) >= 3
    ensures TokenArrives(s, schedule)
  {
    if !TokenArrives(s, schedule) { HelperAdvances(s, schedule, p); }
  }

  /** How often closer `c` is scheduled. */
  function CloserSteps<T>(schedule: seq<Action<T>>, c: nat): nat {
    if schedule == [] then 0
    else CloserSteps(schedule[..|schedule| - 1], c) + if schedule[|schedule| - 1] == CloserStep(c) then 1 else 0
  }

  lemma CloserPends<T>(s: State<T>, a: Action<T>, c: nat)
    requires Shape(s) && c in s.closers && s.closers[c].NotifyClosed? && !Do(s, a).token
    ensures a != CloserStep(c) && c in Do(s, a).closers && Do(s, a).closers[c].NotifyClosed?
  {
  }

  /** Without a token the closer has not been scheduled yet. */
  lemma {:induction false} CloserWaits<T>(s: State<T>, schedule: seq<Action<T>>, c: nat)
    requires Shape(s) && c in s.closers && s.closers[c].NotifyClosed? && !TokenArrives(s, schedule)
    ensures CloserSteps(schedule, c) == 0
    ensures c in After(s, schedule).closers && After(s, schedule).closers[c].NotifyClosed?
  {
    if schedule != [] {
      var n := |schedule| - 1;
      NoTokenInPrefix(s, schedule, n);
      NoTokenYet(s, schedule, n + 1);
      assert schedule[..n + 1] == schedule;
      CloserWaits(s, schedule[..n], c);
      CloserPends(After(s, schedule[..n]), schedule[n], c);
    }
  }

  /** And one step of a closer that has set the flag wakes the sleeper, whatever else is scheduled. */
  lemma CloserWakesSleeper<T>(s: State<T>, schedule: seq<Action<T>>, c: nat)
    requires Shape(s) && c in s.closers && s.closers[c].NotifyClosed? && CloserSteps(schedule, c) >= 1
    ensures TokenArrives(s, schedule)
  {
    if !TokenArrives(s, schedule) { CloserWaits(s, schedule, c); }
  }

  // ---- closing ----

  /** `Dequeue` returns 0 only on a closed queue, with every position claimed so far delivered. */
  lemma DrainedOnClose<T>(capacity: nat, zero: T, schedule: seq<Action<T>>)
    requires NewCapacity(capacity)
    requires var s := After(Init(capacity, zero), schedule);
             StepConsumer(s).batches == s.batches + [[]]
    ensures var s := After(Init(capacity, zero), schedule);
            s.closed && Flatten(s.batches) == s.log
  {
    var s := After(Init(capacity, zero), schedule);
    InvAlways(capacity, zero, schedule);
    assert s.log[..s.head] == s.log;
    assert StepConsumer(s).batches[|s.batches|] == [];
  }
}
