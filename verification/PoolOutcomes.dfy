/** What a call on the AMQP pools comes to: where a released socket ends up under any scheduling, what a get
    returns, and what a heartbeat leaves behind. */
module PoolOutcomes {
  import opened TokenPools

  /** The state after a schedule. */
  function Run(s: State, acts: seq<Action>): State {
    if acts == [] then s else Do(Run(s, acts[..|acts| - 1]), acts[|acts| - 1])
  }

  lemma {:induction false} RunIsAfter(capacity: nat, acts: seq<Action>)
    ensures Run(New(capacity), acts) == After(capacity, acts)
  {
    if acts != [] { RunIsAfter(capacity, acts[..|acts| - 1]); }
  }

  /** A socket that is closed stays closed. */
  lemma {:induction false} ClosedStays(s: State, acts: seq<Action>)
    ensures s.closed <= Run(s, acts).closed
  {
    if acts != [] { ClosedStays(s, acts[..|acts| - 1]); }
  }

  // ---- release ----

  /** Goroutine `t` is giving socket `x` back; what it will send is decided once it has looked at the socket. */
  predicate GivingBack(s: State, t: nat, x: Socket, since: State) {
    match At(s, t)
    case Uncounting(y) => y == x
    case Releasing(y) => y == x
    case Return(y) => y == x && x !in since.closed
    case Refund => x in s.closed
    case _ => false
  }

  /** The step that ends the release: an open socket goes into the pool, or a token for a closed one. */
  predicate Returned(before: State, after: State, t: nat, x: Socket) {
    after == before.(pool := before.pool + [x], threads := before.threads[t := Idle])
  }

  predicate Refunded(before: State, after: State, t: nat) {
    after == before.(size := before.size + 1, threads := before.threads[t := Idle])
  }

  /** The release ended with the `k`-th action, in one of the two ways. */
  predicate EndedAt(s: State, acts: seq<Action>, t: nat, x: Socket, k: nat)
    requires k < |acts|
  {
    var before, after := Run(s, acts[..k]), Run(s, acts[..k + 1]);
    || (x !in s.closed && Returned(before, after, t, x))
    || (x in before.closed && Refunded(before, after, t))
  }

  /** Nobody else moves the goroutine, or opens a socket again. */
  lemma OthersLeaveIt(s: State, a: Action, t: nat)
    requires !(a.Step? && a.t == t) && !At(s, t).Idle? && !At(s, t).Held?
    ensures At(Do(s, a), t) == At(s, t) && s.closed <= Do(s, a).closed
  {
    if a.Step? { OtherThread(s, a.t, a.choice, t); }
  }

  lemma OtherThread(s: State, u: nat, choice: bool, t: nat)
    requires u != t
    ensures At(StepThread(s, u, choice), t) == At(s, t) && StepThread(s, u, choice).closed == s.closed
  {
  }

  lemma GivingStep(since: State, s: State, a: Action, t: nat, x: Socket)
    requires GivingBack(s, t, x, since) && since.closed <= s.closed
    ensures var v := Do(s, a);
            || GivingBack(v, t, x, since)
            || (x !in since.closed && Returned(s, v, t, x))
            || (x in s.closed && Refunded(s, v, t))
  {
    if a.Step? && a.t == t {
      OwnStep(since, s, t, x);
    } else {
      OthersLeaveIt(s, a, t);
    }
  }

  lemma OwnStep(since: State, s: State, t: nat, x: Socket)
    requires GivingBack(s, t, x, since) && since.closed <= s.closed
    ensures var v := StepRelease(s, t);
            || GivingBack(v, t, x, since)
            || (x !in since.closed && Returned(s, v, t, x))
            || (x in s.closed && Refunded(s, v, t))
  {
  }

  lemma Shorter(s: State, acts: seq<Action>, t: nat, x: Socket, n: nat, k: nat)
    requires k < n <= |acts|
    ensures EndedAt(s, acts[..n], t, x, k) == EndedAt(s, acts, t, x, k)
  {
    assert acts[..n][..k] == acts[..k] && acts[..n][..k + 1] == acts[..k + 1];
  }

  /** Under every scheduling: a goroutine that releases a socket is still at it, or one of its steps put the socket
      into the pool and nothing else, or one of its steps put a token back because the socket was closed. */
  lemma {:induction false} ReleaseEnds(s: State, acts: seq<Action>, t: nat, x: Socket)
    requires At(s, t) == Uncounting(x)
    ensures GivingBack(Run(s, acts), t, x, s) || exists k :: 0 <= k < |acts| && EndedAt(s, acts, t, x, k)
  {
    if acts != [] {
      var n := |acts| - 1;
      ReleaseEnds(s, acts[..n], t, x);
      if k :| 0 <= k < n && EndedAt(s, acts[..n], t, x, k) {
        Shorter(s, acts, t, x, n, k);
      } else {
        ClosedStays(s, acts[..n]);
        GivingStep(s, Run(s, acts[..n]), acts[n], t, x);
        assert acts[..n + 1] == acts;
        assert GivingBack(Run(s, acts), t, x, s) || EndedAt(s, acts, t, x, n);
      }
    }
  }

  /** A socket that is open to the end goes back into the pool; the token channel is left as it is. */
  lemma OpenIsReturned(s: State, acts: seq<Action>, t: nat, x: Socket)
    requires At(s, t) == Uncounting(x) && At(Run(s, acts), t) == Idle && x !in Run(s, acts).closed
    ensures exists k :: 0 <= k < |acts| && Returned(Run(s, acts[..k]), Run(s, acts[..k + 1]), t, x)
  {
    ReleaseEnds(s, acts, t, x);
    var k :| 0 <= k < |acts| && EndedAt(s, acts, t, x, k);
    ClosedStays(Run(s, acts[..k]), acts[k..]);
    RunJoined(s, acts[..k], acts[k..]);
    assert acts[..k] + acts[k..] == acts;
  }

  /** For a socket that is closed from the start a token goes back, and the socket nowhere. */
  lemma ClosedIsRefunded(s: State, acts: seq<Action>, t: nat, x: Socket)
    requires At(s, t) == Uncounting(x) && At(Run(s, acts), t) == Idle && x in s.closed
    ensures exists k :: 0 <= k < |acts| && Refunded(Run(s, acts[..k]), Run(s, acts[..k + 1]), t)
  {
    ReleaseEnds(s, acts, t, x);
    var k :| 0 <= k < |acts| && EndedAt(s, acts, t, x, k);
  }

  lemma {:induction false} RunJoined(s: State, a: seq<Action>, b: seq<Action>)
    ensures Run(s, a + b) == Run(Run(s, a), b)
  {
    if b == [] {
      assert a + b == a;
    } else {
      assert (a + b)[..|a + b| - 1] == a + b[..|b| - 1];
      RunJoined(s, a, b[..|b| - 1]);
    }
  }

  // ---- calls that run alone ----

  /** The goroutine takes `n` steps in a row. */
  function Steps(s: State, t: nat, choice: bool, n: nat): State
    decreases n, s.capacity
  {
    if n == 0 then s else Steps(Do(s, Step(t, choice)), t, choice, n - 1)
  }

  lemma {:induction false} Join(s: State, t: nat, choice: bool, m: nat, n: nat)
    ensures Steps(s, t, choice, m + n) == Steps(Steps(s, t, choice, m), t, choice, n)
    decreases m
  {
    if m > 0 { Join(Do(s, Step(t, choice)), t, choice, m - 1, n); }
  }

  lemma Follow(start: State, t: nat, choice: bool, m: nat, u: State, n: nat, v: State)
    requires Steps(start, t, choice, m) == u && Steps(u, t, choice, n) == v
    ensures Steps(start, t, choice, m + n) == v
  {
    Join(start, t, choice, m, n);
  }

  lemma OneStep(s: State, t: nat, choice: bool)
    ensures Steps(s, t, choice, 1) == Do(s, Step(t, choice))
  {
    assert Steps(Do(s, Step(t, choice)), t, choice, 0) == Do(s, Step(t, choice));
  }

  lemma TwoSteps(s: State, t: nat, choice: bool)
    ensures Steps(s, t, choice, 2) == Do(Do(s, Step(t, choice)), Step(t, choice))
  {
    OneStep(s, t, choice);
    OneStep(Do(s, Step(t, choice)), t, choice);
    Join(s, t, choice, 1, 1);
  }

  lemma ThreeSteps(s: State, t: nat, choice: bool)
    ensures Steps(s, t, choice, 3) == Do(Do(Do(s, Step(t, choice)), Step(t, choice)), Step(t, choice))
  {
    TwoSteps(s, t, choice);
    OneStep(Do(Do(s, Step(t, choice)), Step(t, choice)), t, choice);
    Join(s, t, choice, 2, 1);
  }

  /** The same goroutine at another place. */
  lemma GoTwice(s: State, t: nat, a: Pc, b: Pc)
    ensures Go(Go(s, t, a), t, b) == Go(s, t, b) && At(Go(s, t, a), t) == a
  {
    assert s.threads[t := a][t := b] == s.threads[t := b];
  }

  lemma ThreeInARow(s: State, t: nat, choice: bool, s1: State, s2: State, s3: State)
    requires Do(s, Step(t, choice)) == s1 && Do(s1, Step(t, choice)) == s2 && Do(s2, Step(t, choice)) == s3
    ensures Steps(s, t, choice, 3) == s3
  {
    ThreeSteps(s, t, choice);
  }

  /** A release that runs alone, in any reachable state: three steps put an open socket back into the pool, or a
      token for a closed one; then the socket is counted by nobody. */
  lemma AloneReleases(capacity: nat, acts: seq<Action>, t: nat, choice: bool)
    requires At(After(capacity, acts), t).Held?
    ensures var s := After(capacity, acts);
            var x := At(s, t).socket;
            var v := Steps(Do(s, Release(t)), t, choice, 3);
            && v.threads == s.threads[t := Idle] && v.refs == s.refs[x := 0]
            && v.pool == s.pool + (if x in s.closed then [] else [x])
            && v.size == s.size + (if x in s.closed then 1 else 0)
            && v.closed == s.closed && v.next == s.next
  {
    InvAlways(capacity, acts);
    var s := After(capacity, acts);
    var x := At(s, t).socket;
    DebtMakesRoom(s, t);
    var u := s.(refs := s.refs[x := 0]);
    GoTwice(s, t, Uncounting(x), Releasing(x));
    assert Do(s, Release(t)) == Go(s, t, Uncounting(x));
    assert Do(Go(s, t, Uncounting(x)), Step(t, choice)) == Go(u, t, Releasing(x));
    ThreeSteps(Do(s, Release(t)), t, choice);
    LookAndSend(u, t, x, choice);
  }

  lemma LookAndSend(u: State, t: nat, x: Socket, choice: bool)
    requires u.size < u.capacity && |u.pool| < u.capacity
    ensures Do(Do(Go(u, t, Releasing(x)), Step(t, choice)), Step(t, choice)) ==
            if x in u.closed then Go(u.(size := u.size + 1), t, Idle) else Go(u.(pool := u.pool + [x]), t, Idle)
  {
    var next := if x in u.closed then Refund else Return(x);
    GoTwice(u, t, Releasing(x), next);
    GoTwice(u.(size := u.size + 1), t, next, Idle);
    GoTwice(u.(pool := u.pool + [x]), t, next, Idle);
  }

  /** The socket exists, but is neither in the pool nor in anybody's hands. */
  ghost predicate Nowhere(s: State, x: Socket) {
    && x < s.next && x !in s.pool
    && forall u :: u in s.threads && Has(s.threads[u]) ==> s.threads[u].socket != x
  }

  lemma NowhereKept(s: State, a: Action, x: Socket)
    requires Nowhere(s, x)
    ensures Nowhere(Do(s, a), x)
  {
    if a.Step? {
      NowhereStep(s, a.t, a.choice, x);
    }
  }

  lemma NowhereStep(s: State, t: nat, choice: bool, x: Socket)
    requires Nowhere(s, x)
    ensures Nowhere(StepThread(s, t, choice), x)
  {
    NowhereGet(s, t, choice, x);
    NowhereRelease(s, t, x);
    NowhereBeat(s, t, choice, x);
  }

  lemma NowhereGet(s: State, t: nat, choice: bool, x: Socket)
    requires Nowhere(s, x)
    ensures Nowhere(StepGet(s, t, choice), x)
  {
  }

  lemma NowhereRelease(s: State, t: nat, x: Socket)
    requires Nowhere(s, x)
    ensures Nowhere(StepRelease(s, t), x)
  {
  }

  lemma NowhereBeat(s: State, t: nat, choice: bool, x: Socket)
    requires Nowhere(s, x)
    ensures Nowhere(StepBeat(s, t, choice), x)
  {
  }

  lemma {:induction false} NowhereForGood(s: State, acts: seq<Action>, x: Socket)
    requires Nowhere(s, x)
    ensures Nowhere(Run(s, acts), x)
  {
    if acts != [] {
      NowhereForGood(s, acts[..|acts| - 1], x);
      NowhereKept(Run(s, acts[..|acts| - 1]), acts[|acts| - 1], x);
    }
  }

  lemma ClosedIsNowhere(s: State, t: nat, v: State)
    requires Alone(s) && At(s, t).Held? && v.threads == s.threads[t := Idle] && v.pool == s.pool && v.next == s.next
    ensures Nowhere(v, At(s, t).socket)
  {
  }

  /** A closed socket that was released is in nobody's hands and not in the pool, whatever happens afterwards. */
  lemma ClosedSocketIsGone(capacity: nat, acts: seq<Action>, t: nat, choice: bool, more: seq<Action>)
    requires At(After(capacity, acts), t).Held?
    ensures var s := After(capacity, acts);
            var x := At(s, t).socket;
            x in s.closed ==> Nowhere(Run(Steps(Do(s, Release(t)), t, choice, 3), more), x)
  {
    var s := After(capacity, acts);
    var v := Steps(Do(s, Release(t)), t, choice, 3);
    if At(s, t).socket in s.closed {
      InvAlways(capacity, acts);
      AloneReleases(capacity, acts, t, choice);
      assert v.pool == s.pool;
      ClosedIsNowhere(s, t, v);
      NowhereForGood(v, more, At(s, t).socket);
    }
  }

  // ---- get ----

  /** A get that runs alone takes the idle socket that has waited longest. */
  lemma AloneTakesIdle(s: State, t: nat, choice: bool)
    requires At(s, t) == Idle && s.pool != []
    ensures var x := s.pool[0];
            Steps(Do(s, Get(t)), t, choice, 2) ==
              s.(pool := s.pool[1..], refs := s.refs[x := Refs(s, x) + 1], threads := s.threads[t := Held(x)])
  {
    var x := s.pool[0];
    GoTwice(s.(pool := s.pool[1..]), t, TryPool, Counting(x));
    GoTwice(s.(pool := s.pool[1..]), t, Counting(x), Held(x));
    TwoSteps(Do(s, Get(t)), t, choice);
  }

  lemma Begun(s: State, t: nat)
    requires At(s, t) == Idle && s.pool == [] && s.size > 0
    ensures Steps(Do(s, Get(t)), t, true, 2) == Go(s.(size := s.size - 1), t, Dialing)
    ensures Steps(Do(s, Get(t)), t, false, 2) == Go(s.(size := s.size - 1), t, Dialing)
  {
    GoTwice(s, t, TryPool, TrySize);
    GoTwice(s.(size := s.size - 1), t, TrySize, Dialing);
    TwoSteps(Do(s, Get(t)), t, true);
    TwoSteps(Do(s, Get(t)), t, false);
  }

  lemma DialStep(u: State, t: nat)
    ensures Do(Go(u, t, Dialing), Step(t, true)) == Go(u.(next := u.next + 1), t, Dialed(u.next))
  {
    GoTwice(u.(next := u.next + 1), t, Dialing, Dialed(u.next));
  }

  lemma LookStep(u: State, t: nat, x: Socket)
    ensures Do(Go(u, t, Dialed(x)), Step(t, true)) == Go(u, t, if x in u.closed then Refund else Counting(x))
  {
    GoTwice(u, t, Dialed(x), if x in u.closed then Refund else Counting(x));
  }

  lemma CountStep(u: State, t: nat, x: Socket)
    ensures Do(Go(u, t, Counting(x)), Step(t, true)) == Go(u.(refs := u.refs[x := Refs(u, x) + 1]), t, Held(x))
  {
    GoTwice(u.(refs := u.refs[x := Refs(u, x) + 1]), t, Counting(x), Held(x));
  }

  lemma RefundStep(u: State, t: nat, choice: bool)
    requires u.size < u.capacity
    ensures Do(Go(u, t, Refund), Step(t, choice)) == Go(u.(size := u.size + 1), t, Idle)
  {
    GoTwice(u.(size := u.size + 1), t, Refund, Idle);
  }

  lemma BegunThen(s: State, t: nat, v: State)
    requires At(s, t) == Idle && s.pool == [] && s.size > 0
    requires Steps(Go(s.(size := s.size - 1), t, Dialing), t, true, 3) == v
    ensures Steps(Do(s, Get(t)), t, true, 5) == v
  {
    Begun(s, t);
    Follow(Do(s, Get(t)), t, true, 2, Go(s.(size := s.size - 1), t, Dialing), 3, v);
  }

  /** With nothing idle and a token free it uses the token up for a new socket. */
  lemma AloneCreates(s: State, t: nat)
    requires At(s, t) == Idle && s.pool == [] && s.size > 0 && s.next !in s.closed
    ensures var x := s.next;
            var refs := s.refs[x := Refs(s, x) + 1];
            Steps(Do(s, Get(t)), t, true, 5)
              == s.(size := s.size - 1, next := x + 1, refs := refs, threads := s.threads[t := Held(x)])
  {
    var u := s.(size := s.size - 1);
    DialsOpen(u, t);
    BegunThen(s, t, Steps(Go(u, t, Dialing), t, true, 3));
  }

  lemma DialsOpen(u: State, t: nat)
    requires u.next !in u.closed
    ensures var x := u.next;
            Steps(Go(u, t, Dialing), t, true, 3)
              == Go(u.(next := x + 1, refs := u.refs[x := Refs(u, x) + 1]), t, Held(x))
  {
    var x := u.next;
    var d := u.(next := x + 1);
    DialStep(u, t);
    LookStep(d, t, x);
    CountStep(d, t, x);
    ThreeInARow(Go(u, t, Dialing), t, true, Go(d, t, Dialed(x)), Go(d, t, Counting(x)),
      Go(u.(next := x + 1, refs := u.refs[x := Refs(u, x) + 1]), t, Held(x)));
  }

  lemma DialFails(u: State, t: nat)
    requires u.size < u.capacity
    ensures Steps(Go(u, t, Dialing), t, false, 2) == Go(u.(size := u.size + 1), t, Idle)
  {
    GoTwice(u, t, Dialing, Refund);
    RefundStep(u, t, false);
    TwoSteps(Go(u, t, Dialing), t, false);
  }

  lemma DialsClosed(u: State, t: nat)
    requires u.next in u.closed && u.size < u.capacity
    ensures Steps(Go(u, t, Dialing), t, true, 3) == Go(u.(next := u.next + 1, size := u.size + 1), t, Idle)
  {
    var x := u.next;
    var d := u.(next := x + 1);
    DialStep(u, t);
    LookStep(d, t, x);
    RefundStep(d, t, true);
    ThreeInARow(Go(u, t, Dialing), t, true, Go(d, t, Dialed(x)), Go(d, t, Refund), Go(d.(size := u.size + 1), t, Idle));
  }

  /** If dialing fails the token goes back. */
  lemma AloneFails(s: State, t: nat)
    requires At(s, t) == Idle && s.pool == [] && 0 < s.size <= s.capacity
    ensures Steps(Do(s, Get(t)), t, false, 4) == s.(threads := s.threads[t := Idle])
  {
    Begun(s, t);
    DialFails(s.(size := s.size - 1), t);
    Join(Do(s, Get(t)), t, false, 2, 2);
  }

  /** So it does if the new socket is closed before it is looked at. */
  lemma AloneDialsClosed(s: State, t: nat)
    requires At(s, t) == Idle && s.pool == [] && 0 < s.size <= s.capacity && s.next in s.closed
    ensures Steps(Do(s, Get(t)), t, true, 5) == s.(next := s.next + 1, threads := s.threads[t := Idle])
  {
    var u := s.(size := s.size - 1);
    DialsClosed(u, t);
    BegunThen(s, t, Steps(Go(u, t, Dialing), t, true, 3));
  }

  /** With nothing idle and no token it waits. */
  lemma AloneWaits(s: State, t: nat)
    requires At(s, t) == Idle && s.pool == [] && s.size == 0
    ensures Steps(Do(s, Get(t)), t, false, 2) == s.(threads := s.threads[t := Waiting])
  {
    GoTwice(s, t, TryPool, TrySize);
    GoTwice(s, t, TrySize, Waiting);
    TwoSteps(Do(s, Get(t)), t, false);
  }

  /** Whoever waits takes the first socket that is given back, or gives up with nothing. */
  lemma WaiterTakes(s: State, t: nat)
    requires At(s, t) == Waiting
    ensures Do(s, Step(t, true)) == s.(threads := s.threads[t := Idle])
    ensures Do(s, Step(t, false)) ==
            if s.pool == [] then s
            else s.(pool := s.pool[1..], threads := s.threads[t := Counting(s.pool[0])])
  {
  }

  // ---- heartbeat ----

  function StillOpen(pool: seq<Socket>, closed: set<Socket>): seq<Socket> {
    if pool == [] then []
    else StillOpen(pool[..|pool| - 1], closed) + if pool[|pool| - 1] in closed then [] else [pool[|pool| - 1]]
  }

  lemma {:induction false} StillOpenFits(pool: seq<Socket>, closed: set<Socket>)
    ensures |StillOpen(pool, closed)| <= |pool|
  {
    if pool != [] { StillOpenFits(pool[..|pool| - 1], closed); }
  }

  /** After `j` of the idle sockets were looked at. */
  function Looked(s: State, j: nat): State
    requires j <= |s.pool|
  {
    var open := StillOpen(s.pool[..j], s.closed);
    StillOpenFits(s.pool[..j], s.closed);
    s.(pool := s.pool[j..] + open, size := s.size + j - |open|)
  }

  /** Looking at one socket: three steps. */
  lemma LookAtOne(u: State, t: nat, left: nat, x: Socket, rest: seq<Socket>)
    requires u.size + |u.pool| <= u.capacity && u.pool == [x] + rest && left > 0
    ensures Steps(Go(u, t, Beat(left)), t, false, 3) ==
            if x in u.closed then Go(u.(pool := rest, size := u.size + 1), t, Beat(left - 1))
            else Go(u.(pool := rest + [x]), t, Beat(left - 1))
  {
    var v := u.(pool := rest);
    BeatTakes(u, t, left, x, rest);
    BeatLooks(v, t, left, x);
    BeatSends(v, t, left, x);
    ThreeInARow(Go(u, t, Beat(left)), t, false, Go(v, t, BeatGot(x, left)),
      Go(v, t, if x in u.closed then BeatRefund(left) else BeatReturn(x, left)),
      if x in u.closed then Go(v.(size := u.size + 1), t, Beat(left - 1))
      else Go(v.(pool := rest + [x]), t, Beat(left - 1)));
  }

  lemma BeatTakes(u: State, t: nat, left: nat, x: Socket, rest: seq<Socket>)
    requires u.pool == [x] + rest && left > 0
    ensures Do(Go(u, t, Beat(left)), Step(t, false)) == Go(u.(pool := rest), t, BeatGot(x, left))
  {
    assert u.pool[1..] == rest && u.pool[0] == x;
    GoTwice(u.(pool := rest), t, Beat(left), BeatGot(x, left));
  }

  lemma BeatLooks(v: State, t: nat, left: nat, x: Socket)
    ensures Do(Go(v, t, BeatGot(x, left)), Step(t, false))
         == Go(v, t, if x in v.closed then BeatRefund(left) else BeatReturn(x, left))
  {
    GoTwice(v, t, BeatGot(x, left), if x in v.closed then BeatRefund(left) else BeatReturn(x, left));
  }

  lemma BeatSends(v: State, t: nat, left: nat, x: Socket)
    requires left > 0 && v.size < v.capacity && |v.pool| < v.capacity
    ensures Do(Go(v, t, BeatRefund(left)), Step(t, false)) == Go(v.(size := v.size + 1), t, Beat(left - 1))
    ensures Do(Go(v, t, BeatReturn(x, left)), Step(t, false)) == Go(v.(pool := v.pool + [x]), t, Beat(left - 1))
  {
    GoTwice(v.(size := v.size + 1), t, BeatRefund(left), Beat(left - 1));
    GoTwice(v.(pool := v.pool + [x]), t, BeatReturn(x, left), Beat(left - 1));
  }

  /** The two channels after one more socket. */
  lemma OneMoreLook(s: State, j: nat)
    requires j < |s.pool|
    ensures var x := s.pool[j];
            var rest := s.pool[j + 1..] + StillOpen(s.pool[..j], s.closed);
            && Looked(s, j).pool == [x] + rest
            && Looked(s, j).size + |Looked(s, j).pool| == s.size + |s.pool|
            && Looked(s, j + 1) ==
               if x in s.closed then Looked(s, j).(pool := rest, size := Looked(s, j).size + 1)
               else Looked(s, j).(pool := rest + [x])
  {
    var open := StillOpen(s.pool[..j], s.closed);
    StillOpenFits(s.pool[..j], s.closed);
    assert s.pool[..j + 1][..j] == s.pool[..j];
    StillOpenFits(s.pool[..j + 1], s.closed);
    assert s.pool[j..] + open == [s.pool[j]] + (s.pool[j + 1..] + open);
    assert s.pool[j + 1..] + open + [s.pool[j]] == s.pool[j + 1..] + (open + [s.pool[j]]);
    assert open + [] == open;
  }

  /** The heartbeat after `j` sockets. */
  function Beating(s: State, t: nat, j: nat): State
    requires j <= |s.pool|
  {
    Go(Looked(s, j), t, Beat(|s.pool| - j))
  }

  lemma BeatenMore(s: State, t: nat, j: nat)
    requires s.size + |s.pool| <= s.capacity && j < |s.pool|
    ensures Steps(Beating(s, t, j), t, false, 3) == Beating(s, t, j + 1)
  {
    OneMoreLook(s, j);
    LookAtOne(Looked(s, j), t, |s.pool| - j, s.pool[j], s.pool[j + 1..] + StillOpen(s.pool[..j], s.closed));
  }

  lemma BeatStarts(s: State, t: nat)
    requires At(s, t) == Idle
    ensures Do(s, Check(t)) == Beating(s, t, 0)
  {
    assert s.pool[0..] + [] == s.pool && s.pool[..0] == [];
  }

  lemma {:induction false} BeatRounds(s: State, t: nat, j: nat, k: nat)
    requires s.size + |s.pool| <= s.capacity && j <= |s.pool| && k == 3 * j
    ensures Steps(Beating(s, t, 0), t, false, k) == Beating(s, t, j)
    decreases j
  {
    if j > 0 {
      BeatRounds(s, t, j - 1, k - 3);
      BeatenMore(s, t, j - 1);
      Follow(Beating(s, t, 0), t, false, k - 3, Beating(s, t, j - 1), 3, Beating(s, t, j));
    }
  }

  lemma BeatRun(s: State, t: nat, n: nat, k: nat)
    requires s.size + |s.pool| <= s.capacity && At(s, t) == Idle && n == |s.pool| && k == 3 * n
    ensures Steps(Do(s, Check(t)), t, false, k + 1) == Go(Looked(s, n), t, Idle)
  {
    BeatStarts(s, t);
    BeatRounds(s, t, n, k);
    BeatEnds(Looked(s, n), t);
    Follow(Do(s, Check(t)), t, false, k, Beating(s, t, n), 1, Go(Looked(s, n), t, Idle));
  }

  /** A heartbeat that runs alone keeps every open idle socket, in order, and exchanges every closed one for a
      token. */
  lemma AloneBeats(s: State, t: nat)
    requires s.size + |s.pool| <= s.capacity && At(s, t) == Idle
    ensures var v := Steps(Do(s, Check(t)), t, false, 3 * |s.pool| + 1);
            && v.pool == StillOpen(s.pool, s.closed)
            && (forall x :: x in v.pool <==> x in s.pool && x !in s.closed)
            && v.size + |v.pool| == s.size + |s.pool|
            && v == s.(pool := v.pool, size := v.size, threads := s.threads[t := Idle])
  {
    BeatRun(s, t, |s.pool|, 3 * |s.pool|);
    AllLooked(s);
    OpenMembers(s.pool, s.closed);
  }

  lemma BeatEnds(u: State, t: nat)
    ensures Steps(Go(u, t, Beat(0)), t, false, 1) == Go(u, t, Idle)
  {
    GoTwice(u, t, Beat(0), Idle);
    OneStep(Go(u, t, Beat(0)), t, false);
  }

  lemma AllLooked(s: State)
    ensures var v := Looked(s, |s.pool|);
            && v.pool == StillOpen(s.pool, s.closed) && v.size + |v.pool| == s.size + |s.pool|
            && v == s.(pool := v.pool, size := v.size)
  {
    StillOpenFits(s.pool, s.closed);
    assert s.pool[..|s.pool|] == s.pool && s.pool[|s.pool|..] == [];
    assert [] + StillOpen(s.pool, s.closed) == StillOpen(s.pool, s.closed);
  }

  lemma {:induction false} OpenMembers(pool: seq<Socket>, closed: set<Socket>)
    ensures forall x :: x in StillOpen(pool, closed) <==> x in pool && x !in closed
  {
    if pool != [] {
      OpenMembers(pool[..|pool| - 1], closed);
      assert pool == pool[..|pool| - 1] + [pool[|pool| - 1]];
    }
  }

  /** In every reachable state there is room for it. */
  lemma RoomInEveryRun(capacity: nat, acts: seq<Action>)
    ensures var s := After(capacity, acts); s.size + |s.pool| <= s.capacity
  {
    InvAlways(capacity, acts);
  }
}
