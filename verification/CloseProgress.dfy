/** The close handler and the commands come to an end, and do what they are for when nobody is in the way. */
module CloseProgress {
  import opened Options
  import opened ShardedIndex
  import opened CloseRace
  import opened CloseTheorems

  lemma {:induction false} AfterJoined(s: State, a: seq<Action>, b: seq<Action>)
    ensures After(s, a + b) == After(After(s, a), b)
  {
    if b == [] {
      assert a + b == a;
    } else {
      assert (a + b)[..|a + b| - 1] == a + b[..|b| - 1];
      AfterJoined(s, a, b[..|b| - 1]);
    }
  }

  lemma One(s: State, a: Action)
    ensures After(s, [a]) == Do(s, a)
  {
    assert [a][..0] == [];
  }

  // ---- a command ----

  /** Only goroutine `t` acts. */
  predicate Mine(acts: seq<Action>, t: nat) {
    forall i :: 0 <= i < |acts| ==> acts[i].Step? && acts[i].t == t
  }

  /** The state when the command of goroutine `t` has let go of the lock. */
  function Completed(s: State, t: nat, v: View): State {
    s.(view := v, writer := None, threads := s.threads[t := Idle])
  }

  lemma LastStep(s: State, t: nat)
    requires ThreadAt(s, t) == Running([])
    ensures Do(s, Step(t, {})) == Completed(s, t, s.view)
  {
  }

  lemma NextStep(s: State, t: nat, ops: seq<Op>)
    requires ThreadAt(s, t) == Running(ops) && ops != []
    ensures var (v, next) := Perform(s.view, ops[0], Whole(ops[0]));
            Do(s, Step(t, Whole(ops[0]))) == s.(view := v, threads := s.threads[t := Running(next + ops[1..])])
  {
  }

  lemma CompletedLater(s: State, t: nat, v: View, th: Thread)
    ensures forall w :: Completed(s.(view := v, threads := s.threads[t := th]), t, w) == Completed(s, t, w)
  {
    assert s.threads[t := th][t := Idle] == s.threads[t := Idle];
  }

  /** What is left of a command comes to its end, in steps of its own. */
  lemma {:induction false} OpsEnd(s: State, t: nat, ops: seq<Op>) returns (acts: seq<Action>)
    requires ThreadAt(s, t) == Running(ops)
    ensures Mine(acts, t) && After(s, acts) == Completed(s, t, Finish(s.view, ops))
    decreases Weight(ops)
  {
    if ops == [] {
      LastStep(s, t);
      One(s, Step(t, {}));
      acts := [Step(t, {})];
    } else {
      var (v, next) := Perform(s.view, ops[0], Whole(ops[0]));
      var a := Step(t, Whole(ops[0]));
      NextStep(s, t, ops);
      WholeIsLighter(s.view, ops);
      var more := OpsEnd(Do(s, a), t, next + ops[1..]);
      One(s, a);
      AfterJoined(s, [a], more);
      CompletedLater(s, t, v, Running(next + ops[1..]));
      acts := [a] + more;
    }
  }

  /** A command on a managed open connection whose lock is free runs to its end: the view is then the one of the
      whole command, and the lock is free again. */
  lemma CommandCompletes(s: State, t: nat, r: Request) returns (acts: seq<Action>)
    requires ThreadAt(s, t).Idle? && s.managed && !s.closed && s.writer.None? && s.readers == 0
    ensures Mine(acts, t) && After(Do(s, Start(t, r)), acts) == Completed(s, t, Finish(s.view, Program(r)))
  {
    var got := Do(s, Start(t, r));
    var a := Step(t, {});
    var running := got.(writer := Some(t), threads := s.threads[t := Running(Program(r))]);
    Entered(s, t, r);
    var more := OpsEnd(running, t, Program(r));
    AfterJoined(got, [a, a], more);
    acts := [a, a] + more;
    assert Completed(running, t, Finish(s.view, Program(r))) == Completed(s, t, Finish(s.view, Program(r))) by {
      assert running.threads[t := Idle] == s.threads[t := Idle];
    }
  }

  /** Two steps take the lock and pass the test of the flag. */
  lemma Entered(s: State, t: nat, r: Request)
    requires ThreadAt(s, t).Idle? && s.managed && !s.closed && s.writer.None? && s.readers == 0
    ensures After(Do(s, Start(t, r)), [Step(t, {}), Step(t, {})])
         == s.(writer := Some(t), threads := s.threads[t := Running(Program(r))])
  {
    var a := Step(t, {});
    var got := s.(threads := s.threads[t := Got(r)]);
    var locked := s.(writer := Some(t), threads := s.threads[t := Locked(r)]);
    assert Do(s, Start(t, r)) == got;
    assert got.threads[t := Locked(r)] == s.threads[t := Locked(r)] && Do(got, a) == locked;
    assert locked.threads[t := Running(Program(r))] == s.threads[t := Running(Program(r))];
    One(got, a);
    One(locked, a);
    assert [a] + [a] == [a, a];
    AfterJoined(got, [a], [a]);
  }

  /** So subscribing leaves the connection with these topics, and in their entries; and so on for the others. */
  lemma SubscribedAlone(s: State, t: nat, list: seq<string>) returns (acts: seq<Action>)
    requires ThreadAt(s, t).Idle? && s.managed && !s.closed && s.writer.None? && s.readers == 0 && Agree(s.view)
    ensures Mine(acts, t)
    ensures var v := After(Do(s, Start(t, Subscribing(list))), acts).view;
            forall k :: (k in v.topics <==> k in s.view.topics || (k in list && k != "")) &&
                        (k in v.inTopics <==> k in v.topics)
  {
    acts := CommandCompletes(s, t, Subscribing(list));
    FinishTopics(s.view, list);
  }

  /** A command that finds the flag set gives up and changes nothing. */
  lemma CommandGivesUp(s: State, t: nat, r: Request)
    requires ThreadAt(s, t).Idle? && s.managed && s.closed && s.writer.None? && s.readers == 0
    ensures After(Do(s, Start(t, r)), [Step(t, {}), Step(t, {})]) == Completed(s, t, s.view)
  {
    var a := Step(t, {});
    var got := s.(threads := s.threads[t := Got(r)]);
    var locked := s.(writer := Some(t), threads := s.threads[t := Locked(r)]);
    assert Do(s, Start(t, r)) == got;
    assert got.threads[t := Locked(r)] == s.threads[t := Locked(r)] && Do(got, a) == locked;
    assert locked.threads[t := Idle] == s.threads[t := Idle] && Do(locked, a) == Completed(s, t, s.view);
    One(got, a);
    One(locked, a);
    assert [a] + [a] == [a, a];
    AfterJoined(got, [a], [a]);
  }

  /** A connection that is no longer managed is not found. */
  lemma NotFound(s: State, t: nat, r: Request)
    requires !s.managed
    ensures Do(s, Start(t, r)) == s
  {
  }

  // ---- the close handler ----

  function Steps(s: State, group: set<string>, n: nat): State
    decreases n, s.readers
  {
    if n == 0 then s else Steps(Do(s, CloserStep(group)), group, n - 1)
  }

  lemma SevenSteps(s0: State, g: set<string>, s1: State, s2: State, s3: State, s4: State, s5: State, s6: State,
      s7: State)
    requires StepCloser(s0, g) == s1 && StepCloser(s1, g) == s2 && StepCloser(s2, g) == s3 && StepCloser(s3, g) == s4
    requires StepCloser(s4, g) == s5 && StepCloser(s5, g) == s6 && StepCloser(s6, g) == s7
    ensures Steps(s0, g, 7) == s7
  {
    assert Steps(s7, g, 0) == s7;
    assert Steps(s6, g, 1) == s7;
    assert Steps(s5, g, 2) == s7;
    assert Steps(s4, g, 3) == s7;
    assert Steps(s3, g, 4) == s7;
    assert Steps(s2, g, 5) == s7;
    assert Steps(s1, g, 6) == s7;
  }

  /** When no writer holds the lock the close handler runs to its end in seven steps: the connection is flagged, no
      longer managed, and out of every entry that its topics and its customerId name. */
  lemma CloseCompletes(s: State, group: set<string>)
    requires s.closer == Serving && s.writer.None? && s.view.topics - {""} <= group
    ensures var v := s.view;
            var left := v.(inTopics := v.inTopics - (v.topics - {""}),
                           inCustomers := v.inCustomers - ({v.customer} - {""}));
            Steps(s, group, 7) == s.(managed := false, closed := true, closer := Gone, view := left)
  {
    var v, c, list := s.view, s.view.customer, s.view.topics;
    var s2 := s.(managed := false, closed := true, closer := Unmanaged);
    var w := v.(inCustomers := v.inCustomers - ({c} - {""}));
    assert c != "" ==> {c} - {""} == {c};
    assert w.inTopics - group * (list - {""}) == w.inTopics - (list - {""});
    var u := w.(inTopics := w.inTopics - (list - {""}));
    SevenSteps(s, group, s.(closed := true, closer := Flagged), s2,
      s2.(readers := s.readers + 1, closer := Reading), s2.(readers := s.readers + 1, closer := Snapped(c, list)),
      s2.(closer := Unbinding(c, list)), s2.(view := w, closer := Unlinking(list - {""})),
      s2.(view := u, closer := Gone));
  }

  /** So when connection and indexes agreed, nothing of it is left in them. */
  lemma NothingLeft(s: State, group: set<string>)
    requires s.closer == Serving && s.writer.None? && s.view.topics - {""} <= group && Agree(s.view)
    ensures var v := Steps(s, group, 7).view; v.inTopics == {} && v.inCustomers == {}
  {
    CloseCompletes(s, group);
  }

  /** The shards that are still to be visited become fewer with every step that visits one of them. */
  lemma UnlinkingAdvances(s: State, group: set<string>)
    requires s.closer.Unlinking? && group * s.closer.list != {}
    ensures var v := StepCloser(s, group);
            v.closer == Gone || (v.closer.Unlinking? && v.closer.list < s.closer.list)
  {
    var k :| k in group * s.closer.list;
    if !(s.closer.list <= group) { assert k in s.closer.list && k !in s.closer.list - group; }
  }
}
