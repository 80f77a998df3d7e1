/** One connection, any number of commands on it and its close handler, interleaved at the granularity of
    the locks: the connection's read-write lock, and one lock per index shard. */
module CloseRace {
  import opened Options
  import opened ShardedIndex
  import RegistrySpec

  /** What the connection knows about itself, and the index keys it is found under. */
  datatype View = View(topics: set<string>, customer: string, inTopics: set<string>, inCustomers: set<string>)

  datatype Request =
    | Subscribing(list: seq<string>)
    | Unsubscribing(list: seq<string>)
    | Updating(customer: string, list: seq<string>)
    | Deleting(delTopic: bool, delCustomer: bool)

  /** What a command does while it holds the lock of the connection; an index operation takes the shards one
      by one and is interrupted between them. */
  datatype Op =
    | AddTopics(list: seq<string>)
    | RemoveTopics(list: seq<string>)
    | PullTopics
    | LinkTopics(keys: set<string>)
    | UnlinkTopics(keys: set<string>)
    | UnbindOld
    | DropCustomer
    | Bind(customer: string)
    | Unbind(customer: string)
    | SetCustomer(customer: string)

  datatype Thread = Idle | Got(request: Request) | Locked(request: Request) | Running(ops: seq<Op>)

  datatype Closer =
    | Serving
    | Flagged
    | Unmanaged
    | Reading
    | Snapped(customer: string, list: set<string>)
    | Unbinding(customer: string, list: set<string>)
    | Unlinking(list: set<string>)
    | Gone

  datatype State = State(
    managed: bool,
    closed: bool,
    readers: nat,
    writer: Option<nat>,
    view: View,
    threads: map<nat, Thread>,
    closer: Closer)

  /** A group is the part of the keys that live in the shard whose turn it is. */
  datatype Action =
    | Start(t: nat, request: Request)
    | Step(t: nat, group: set<string>)
    | CloserStep(group: set<string>)
    | EarlyFlag
    | ReaderIn
    | ReaderOut

  function Program(r: Request): seq<Op> {
    match r
    case Subscribing(list) => [AddTopics(list), LinkTopics(Named(list))]
    case Unsubscribing(list) => [RemoveTopics(list), UnlinkTopics(Named(list))]
    case Updating(customer, list) =>
      (if customer == "" then [] else [UnbindOld, Bind(customer), SetCustomer(customer)]) +
      (if list == [] then [] else [PullTopics, AddTopics(list), LinkTopics(Named(list))])
    case Deleting(delTopic, delCustomer) =>
      (if delTopic then [PullTopics] else []) + (if delCustomer then [DropCustomer] else [])
  }

  /** One operation: the view it leaves, and what is to be done next in its place. */
  function Perform(v: View, op: Op, group: set<string>): (View, seq<Op>) {
    match op
    case AddTopics(list) => (v.(topics := v.topics + Named(list)), [])
    case RemoveTopics(list) => (v.(topics := v.topics - set t | t in list), [])
    case PullTopics => (v.(topics := {}), [UnlinkTopics(v.topics - {""})])
    case LinkTopics(keys) =>
      (v.(inTopics := v.inTopics + group * keys), if keys <= group then [] else [LinkTopics(keys - group)])
    case UnlinkTopics(keys) =>
      (v.(inTopics := v.inTopics - group * keys), if keys <= group then [] else [UnlinkTopics(keys - group)])
    case UnbindOld => (v, if v.customer == "" then [] else [Unbind(v.customer)])
    case DropCustomer => (v, if v.customer == "" then [] else [Unbind(v.customer), SetCustomer("")])
    case Bind(customer) => (v.(inCustomers := v.inCustomers + {customer}), [])
    case Unbind(customer) => (v.(inCustomers := v.inCustomers - {customer}), [])
    case SetCustomer(customer) => (v.(customer := customer), [])
  }

  function ThreadAt(s: State, t: nat): Thread {
    if t in s.threads then s.threads[t] else Idle
  }

  function StepThread(s: State, t: nat, group: set<string>): State {
    match ThreadAt(s, t)
    case Idle => s
    case Got(r) =>
      if s.writer.Some? || s.readers > 0 then s else s.(writer := Some(t), threads := s.threads[t := Locked(r)])
    case Locked(r) =>
      if s.closed then s.(writer := None, threads := s.threads[t := Idle])
      else s.(threads := s.threads[t := Running(Program(r))])
    case Running(ops) =>
      if ops == [] then s.(writer := None, threads := s.threads[t := Idle])
      else
        var (v, next) := Perform(s.view, ops[0], group);
        s.(view := v, threads := s.threads[t := Running(next + ops[1..])])
  }

  function StepCloser(s: State, group: set<string>): State {
    match s.closer
    case Serving => s.(closed := true, closer := Flagged)
    case Flagged => s.(managed := false, closer := Unmanaged)
    case Unmanaged => if s.writer.Some? then s else s.(readers := s.readers + 1, closer := Reading)
    case Reading => s.(closer := Snapped(s.view.customer, s.view.topics))
    case Snapped(c, list) => if s.readers == 0 then s else s.(readers := s.readers - 1, closer := Unbinding(c, list))
    case Unbinding(c, list) =>
      s.(view := if c == "" then s.view else s.view.(inCustomers := s.view.inCustomers - {c}),
         closer := Unlinking(list - {""}))
    case Unlinking(list) =>
      s.(view := s.view.(inTopics := s.view.inTopics - group * list),
         closer := if list <= group then Gone else Unlinking(list - group))
    case Gone => s
  }

  function CloserReads(c: Closer): nat {
    if c.Reading? || c.Snapped? then 1 else 0
  }

  function Do(s: State, a: Action): State {
    match a
    case Start(t, r) =>
      if ThreadAt(s, t).Idle? && s.managed then s.(threads := s.threads[t := Got(r)]) else s
    case Step(t, group) => StepThread(s, t, group)
    case CloserStep(group) => StepCloser(s, group)
    case EarlyFlag => s.(closed := true)
    case ReaderIn => if s.writer.Some? then s else s.(readers := s.readers + 1)
    case ReaderOut => if s.readers > CloserReads(s.closer) then s.(readers := s.readers - 1) else s
  }

  function After(s: State, acts: seq<Action>): State {
    if acts == [] then s else Do(After(s, acts[..|acts| - 1]), acts[|acts| - 1])
  }

  /** A connection whose open registration has finished. */
  function Registered(topics: set<string>, customer: string): State {
    State(true, false, 0, None, View(topics, customer, topics, {customer} - {""}), map[], Serving)
  }

  // ---- a command as a whole ----

  function Weight(ops: seq<Op>): nat {
    if ops == [] then 0
    else OpWeight(ops[0]) + Weight(ops[1..])
  }

  lemma {:induction false} WeightJoined(a: seq<Op>, b: seq<Op>)
    ensures Weight(a + b) == Weight(a) + Weight(b)
  {
    if a != [] {
      assert (a + b)[1..] == a[1..] + b;
      WeightJoined(a[1..], b);
    } else {
      assert a + b == b;
    }
  }

  /** Every key in one go. */
  function Whole(op: Op): set<string> {
    if op.LinkTopics? || op.UnlinkTopics? then op.keys else {}
  }

  lemma WholeIsLighter(v: View, ops: seq<Op>)
    requires ops != []
    ensures Weight(Perform(v, ops[0], Whole(ops[0])).1 + ops[1..]) < Weight(ops)
  {
    WeightJoined(Perform(v, ops[0], Whole(ops[0])).1, ops[1..]);
    NextIsLighter(v, ops[0]);
  }

  function OpWeight(op: Op): nat {
    if op.UnbindOld? || op.PullTopics? then 2 else if op.DropCustomer? then 3 else 1
  }

  lemma WeightOfOne(op: Op)
    ensures Weight([op]) == OpWeight(op)
  {
    assert [op][1..] == [] && Weight([]) == 0;
  }

  lemma WeightOfTwo(a: Op, b: Op)
    ensures Weight([a, b]) == OpWeight(a) + OpWeight(b)
  {
    assert [a, b][1..] == [b];
    WeightOfOne(b);
  }

  lemma NextIsLighter(v: View, op: Op)
    ensures Weight(Perform(v, op, Whole(op)).1) < OpWeight(op)
  {
    WeightOfOne(UnlinkTopics(v.topics - {""}));
    WeightOfOne(Unbind(v.customer));
    WeightOfTwo(Unbind(v.customer), SetCustomer(""));
    assert Weight([]) == 0;
  }

  /** The view when all that is left of a command has been done. */
  function Finish(v: View, ops: seq<Op>): View
    decreases Weight(ops)
  {
    if ops == [] then v
    else
      WholeIsLighter(v, ops);
      var (w, next) := Perform(v, ops[0], Whole(ops[0]));
      Finish(w, next + ops[1..])
  }

  /** Doing an operation, even part of it, does not change what the command leads to. */
  lemma PerformLeadsThere(v: View, ops: seq<Op>, group: set<string>)
    requires ops != []
    ensures Finish(Perform(v, ops[0], group).0, Perform(v, ops[0], group).1 + ops[1..]) == Finish(v, ops)
  {
    var op, rest := ops[0], ops[1..];
    var (w, next) := Perform(v, op, group);
    var (w', next') := Perform(v, op, Whole(op));
    if (op.LinkTopics? || op.UnlinkTopics?) && !(op.keys <= group) {
      assert next == [if op.LinkTopics? then LinkTopics(op.keys - group) else UnlinkTopics(op.keys - group)];
      assert (next + rest)[1..] == rest && (next + rest)[0] == next[0];
      assert v.inTopics + group * op.keys + (op.keys - group) * (op.keys - group) == v.inTopics + op.keys * op.keys;
      assert v.inTopics - group * op.keys - (op.keys - group) * (op.keys - group) == v.inTopics - op.keys * op.keys;
      assert Perform(w, next[0], Whole(next[0])) == (w', next');
    } else if op.LinkTopics? || op.UnlinkTopics? {
      assert group * op.keys == op.keys * op.keys;
    }
  }

  /** Indexes and connection agree. */
  predicate Agree(v: View) {
    v.inTopics == v.topics && v.inCustomers == {v.customer} - {""} && "" !in v.topics
  }

  lemma {:induction false} FinishJoined(v: View, a: seq<Op>, b: seq<Op>)
    ensures Finish(v, a + b) == Finish(Finish(v, a), b)
    decreases Weight(a)
  {
    if a == [] {
      assert a + b == b;
    } else {
      WholeIsLighter(v, a);
      var (w, next) := Perform(v, a[0], Whole(a[0]));
      assert (a + b)[0] == a[0] && next + (a + b)[1..] == next + a[1..] + b;
      WholeIsLighter(v, a + b);
      FinishJoined(w, next + a[1..], b);
    }
  }

  /** An operation that leaves nothing to do. */
  lemma FinishSimple(v: View, op: Op)
    requires Perform(v, op, Whole(op)).1 == []
    ensures Finish(v, [op]) == Perform(v, op, Whole(op)).0
  {
    assert [op][1..] == [] && [] + [op][1..] == [];
  }

  lemma FinishTopics(v: View, list: seq<string>)
    requires Agree(v)
    ensures Finish(v, [AddTopics(list), LinkTopics(Named(list))])
        == v.(topics := v.topics + Named(list), inTopics := v.topics + Named(list))
    ensures Finish(v, [RemoveTopics(list), UnlinkTopics(Named(list))]).topics == v.topics - Named(list)
    ensures Agree(Finish(v, [RemoveTopics(list), UnlinkTopics(Named(list))]))
    ensures Finish(v, [RemoveTopics(list), UnlinkTopics(Named(list))]).customer == v.customer
  {
    FinishJoined(v, [AddTopics(list)], [LinkTopics(Named(list))]);
    FinishJoined(v, [RemoveTopics(list)], [UnlinkTopics(Named(list))]);
    FinishSimple(v, AddTopics(list));
    FinishSimple(v, RemoveTopics(list));
    var a, r := Perform(v, AddTopics(list), {}).0, Perform(v, RemoveTopics(list), {}).0;
    FinishSimple(a, LinkTopics(Named(list)));
    FinishSimple(r, UnlinkTopics(Named(list)));
    assert [AddTopics(list)] + [LinkTopics(Named(list))] == [AddTopics(list), LinkTopics(Named(list))];
    assert [RemoveTopics(list)] + [UnlinkTopics(Named(list))] == [RemoveTopics(list), UnlinkTopics(Named(list))];
    assert r.topics == v.topics - Named(list);
  }

  lemma FinishPull(v: View)
    requires Agree(v)
    ensures Finish(v, [PullTopics]) == v.(topics := {}, inTopics := {})
  {
    PerformLeadsThere(v, [PullTopics], {});
    var w, op := v.(topics := {}), UnlinkTopics(v.topics - {""});
    assert [op] + [PullTopics][1..] == [op];
    FinishSimple(w, op);
    assert v.topics - {""} == v.topics && v.inTopics - v.topics * v.topics == {};
  }

  lemma FinishUnbind(v: View)
    requires Agree(v)
    ensures Finish(v, [UnbindOld]) == v.(inCustomers := {})
    ensures Finish(v, [DropCustomer]) == v.(inCustomers := {}, customer := "")
  {
    PerformLeadsThere(v, [UnbindOld], {});
    PerformLeadsThere(v, [DropCustomer], {});
    var op, clear := Unbind(v.customer), SetCustomer("");
    if v.customer != "" {
      assert [op] + [UnbindOld][1..] == [op] && [op, clear] + [DropCustomer][1..] == [op] + [clear];
      FinishSimple(v, op);
      FinishJoined(v, [op], [clear]);
      FinishSimple(v.(inCustomers := {}), clear);
    } else {
      assert [] + [UnbindOld][1..] == [] && [] + [DropCustomer][1..] == [];
    }
  }

  lemma FinishRebind(v: View, customer: string)
    requires Agree(v) && customer != ""
    ensures Finish(v, [UnbindOld, Bind(customer), SetCustomer(customer)])
        == v.(inCustomers := {customer}, customer := customer)
  {
    var b, c := Bind(customer), SetCustomer(customer);
    FinishUnbind(v);
    var u := v.(inCustomers := {});
    FinishJoined(v, [UnbindOld], [b, c]);
    FinishJoined(u, [b], [c]);
    FinishSimple(u, b);
    FinishSimple(u.(inCustomers := {customer}), c);
    assert [UnbindOld] + [b, c] == [UnbindOld, b, c] && [b] + [c] == [b, c];
  }

  /** What each request does to a connection, said once more by the functions for whole commands. */
  function Commanded(i: RegistrySpec.Info, r: Request): RegistrySpec.Info {
    match r
    case Subscribing(list) => RegistrySpec.Subscribed(i, list)
    case Unsubscribing(list) => RegistrySpec.Unsubscribed(i, list)
    case Updating(customer, list) => RegistrySpec.Updated(i, "", customer, list)
    case Deleting(delTopic, delCustomer) => RegistrySpec.Deleted(i, delTopic, false, delCustomer)
  }

  /** A command that runs to its end is the command as a whole, and keeps connection and indexes in agreement. */
  lemma CommandAsAWhole(i: RegistrySpec.Info, v: View, r: Request)
    requires Agree(v) && i.topics == v.topics && i.customerId == v.customer
    ensures var w := Finish(v, Program(r));
            Agree(w) && w.topics == Commanded(i, r).topics && w.customer == Commanded(i, r).customerId
  {
    match r
    case Subscribing(list) =>
      FinishTopics(v, list);
    case Unsubscribing(list) =>
      FinishTopics(v, list);
      assert Commanded(i, r).topics == v.topics - Named(list);
    case Updating(customer, list) =>
      var first := if customer == "" then [] else [UnbindOld, Bind(customer), SetCustomer(customer)];
      var second := if list == [] then [] else [PullTopics, AddTopics(list), LinkTopics(Named(list))];
      FinishJoined(v, first, second);
      if customer != "" { FinishRebind(v, customer); }
      var w := Finish(v, first);
      if list != [] {
        FinishPull(w);
        FinishJoined(w, [PullTopics], [AddTopics(list), LinkTopics(Named(list))]);
        FinishTopics(Finish(w, [PullTopics]), list);
        assert [PullTopics] + [AddTopics(list), LinkTopics(Named(list))] == second;
      }
    case Deleting(delTopic, delCustomer) =>
      var first, second := if delTopic then [PullTopics] else [], if delCustomer then [DropCustomer] else [];
      FinishJoined(v, first, second);
      FinishPull(v);
      FinishUnbind(Finish(v, first));
  }
}
