/** Closing leaves nothing behind, however it races with commands. */
module CloseTheorems {
  import opened Options
  import opened ShardedIndex
  import RegistrySpec
  import opened CloseRace

  ghost predicate Holds(th: Thread) {
    th.Locked? || th.Running?
  }

  ghost predicate LockOk(s: State) {
    && (forall t :: t in s.threads ==> (Holds(s.threads[t]) <==> s.writer == Some(t)))
    && (s.writer.Some? ==> s.writer.value in s.threads && s.readers == 0)
    && CloserReads(s.closer) <= s.readers
    && (!s.closer.Serving? ==> s.closed)
  }

  /** The view once the command that holds the lock, if any, has run to its end. */
  ghost function Settled(s: State): View {
    if s.writer.Some? && ThreadAt(s, s.writer.value).Running? then Finish(s.view, ThreadAt(s, s.writer.value).ops)
        else s.view
  }

  ghost predicate Snapshotted(c: Closer) {
    c.Snapped? || c.Unbinding? || c.Unlinking? || c.Gone?
  }

  /** What the close handler still has to remove. */
  function PendingTopics(c: Closer): set<string> {
    if c.Snapped? || c.Unbinding? then c.list - {""} else if c.Unlinking? then c.list else {}
  }

  function PendingCustomers(c: Closer): set<string> {
    if c.Snapped? || c.Unbinding? then {c.customer} - {""} else {}
  }

  ghost predicate BeforeSnapshot(s: State) {
    Agree(Settled(s))
  }

  ghost predicate AfterSnapshot(s: State) {
    && (forall t :: t in s.threads ==> !s.threads[t].Running?)
    && s.view.inTopics <= PendingTopics(s.closer)
    && s.view.inCustomers <= PendingCustomers(s.closer)
  }

  ghost predicate Inv(s: State) {
    LockOk(s) && if Snapshotted(s.closer) then AfterSnapshot(s) else BeforeSnapshot(s)
  }

  lemma StepLock(s: State, t: nat, group: set<string>)
    requires LockOk(s)
    ensures LockOk(StepThread(s, t, group))
  {
  }

  lemma StepBefore(s: State, t: nat, group: set<string>)
    requires LockOk(s) && BeforeSnapshot(s)
    ensures BeforeSnapshot(StepThread(s, t, group))
  {
    match ThreadAt(s, t)
    case Idle =>
    case Got(r) =>
    case Locked(r) =>
      if !s.closed {
        CommandAsAWhole(RegistrySpec.Info("", s.view.customer, "", s.view.topics, false, true), s.view, r);
      }
    case Running(ops) =>
      if ops != [] { PerformLeadsThere(s.view, ops, group); }
  }

  lemma StepAfter(s: State, t: nat, group: set<string>)
    requires LockOk(s) && AfterSnapshot(s) && Snapshotted(s.closer)
    ensures AfterSnapshot(StepThread(s, t, group))
  {
  }

  lemma CloserKeeps(s: State, group: set<string>)
    requires Inv(s)
    ensures Inv(StepCloser(s, group))
  {
    if s.closer.Reading? {
      // the read lock is held, so no command is running, and from now on none will
      assert s.writer.None? && Settled(s) == s.view;
    }
  }

  lemma DoKeeps(s: State, a: Action)
    requires Inv(s)
    ensures Inv(Do(s, a))
  {
    match a
    case Start(t, r) =>
    case Step(t, group) =>
      StepLock(s, t, group);
      if Snapshotted(s.closer) { StepAfter(s, t, group); } else { StepBefore(s, t, group); }
    case CloserStep(group) => CloserKeeps(s, group);
    case EarlyFlag =>
    case ReaderIn =>
    case ReaderOut =>
  }

  lemma {:induction false} InvAlways(topics: set<string>, customer: string, acts: seq<Action>)
    requires "" !in topics
    ensures Inv(After(Registered(topics, customer), acts))
  {
    if acts != [] {
      InvAlways(topics, customer, acts[..|acts| - 1]);
      DoKeeps(After(Registered(topics, customer), acts[..|acts| - 1]), acts[|acts| - 1]);
    }
  }

  /** Once the close handler has ended the connection is in neither index, now and after any further steps. */
  lemma NoResidue(topics: set<string>, customer: string, acts: seq<Action>)
    requires "" !in topics
    ensures var s := After(Registered(topics, customer), acts);
            s.closer.Gone? ==> s.view.inTopics == {} && s.view.inCustomers == {}
  {
    InvAlways(topics, customer, acts);
  }

  /** While the connection is not being closed, it agrees with the indexes whenever no command holds its lock. */
  lemma AgreementBetweenCommands(topics: set<string>, customer: string, acts: seq<Action>)
    requires "" !in topics
    ensures var s := After(Registered(topics, customer), acts);
            !Snapshotted(s.closer) && s.writer.None? ==> Agree(s.view)
  {
    InvAlways(topics, customer, acts);
  }

  /** What the close handler reports is the last word: nothing changes the connection afterwards. */
  lemma SnapshotIsFinal(s: State, a: Action)
    requires Inv(s) && Snapshotted(s.closer)
    ensures Do(s, a).view.topics == s.view.topics && Do(s, a).view.customer == s.view.customer
    ensures Snapshotted(Do(s, a).closer)
  {
  }

  // ---- why `OnClose` sets the flag itself ----

  /** A connection without topics whose close handler starts although nobody has set the flag. */
  const UNFLAGGED: State := Registered({}, "").(closer := Flagged)

  lemma Extend(s: State, acts: seq<Action>, a: Action) returns (longer: seq<Action>)
    ensures After(s, longer) == Do(After(s, acts), a)
  {
    longer := acts + [a];
    assert longer[..|acts|] == acts;
  }

  /** The subscriber finds the connection; then the close handler runs from start to end. */
  lemma ClosedFirst() returns (acts: seq<Action>)
    ensures After(UNFLAGGED, acts)
        == UNFLAGGED.(managed := false, closer := Gone, threads := map[0 := Got(Subscribing(["u"]))])
  {
    acts := Extend(UNFLAGGED, [], Start(0, Subscribing(["u"])));
    acts := Extend(UNFLAGGED, acts, CloserStep({}));
    acts := Extend(UNFLAGGED, acts, CloserStep({}));
    acts := Extend(UNFLAGGED, acts, CloserStep({}));
    assert After(UNFLAGGED, acts).closer == Snapped("", {}) && After(UNFLAGGED, acts).readers == 1;
    acts := Extend(UNFLAGGED, acts, CloserStep({}));
    acts := Extend(UNFLAGGED, acts, CloserStep({}));
    assert After(UNFLAGGED, acts).closer == Unlinking({}) by { assert {} - {""} == {}; }
    acts := Extend(UNFLAGGED, acts, CloserStep({}));
    assert UNFLAGGED.view.inTopics - {} * {} == UNFLAGGED.view.inTopics;
  }

  /** Without the flag the subscriber, delayed until the close handler has ended, leaves the connection in the
      topic index for ever. */
  lemma FlagIsNeeded() returns (acts: seq<Action>)
    ensures After(UNFLAGGED, acts).closer.Gone? && After(UNFLAGGED, acts).view.inTopics == {"u"}
  {
    acts := ClosedFirst();
    acts := Extend(UNFLAGGED, acts, Step(0, {}));
    acts := Extend(UNFLAGGED, acts, Step(0, {}));
    assert ThreadAt(After(UNFLAGGED, acts), 0) == Running([AddTopics(["u"]), LinkTopics(Named(["u"]))]);
    acts := Extend(UNFLAGGED, acts, Step(0, {}));
    assert ThreadAt(After(UNFLAGGED, acts), 0) == Running([LinkTopics(Named(["u"]))]) by {
      assert [] + [AddTopics(["u"]), LinkTopics(Named(["u"]))][1..] == [LinkTopics(Named(["u"]))];
    }
    acts := Extend(UNFLAGGED, acts, Step(0, {"u"}));
    assert Named(["u"]) == {"u"};
  }
}
