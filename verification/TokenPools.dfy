/** The pools of AMQP connections and channels: a channel of tokens for sockets that may still be created, and
    a channel of idle sockets. Any number of goroutines get, release and check; a socket may close at any time. */
module TokenPools {

  type Socket = nat

  datatype Pc =
    | Idle
    // get
    | TryPool
    | TrySize
    | Dialing
    | Dialed(socket: Socket)
    | Refund
    | Waiting
    | Counting(socket: Socket)
    // release
    | Held(socket: Socket)
    | Uncounting(socket: Socket)
    | Releasing(socket: Socket)
    | Return(socket: Socket)
    // heartbeat
    | Beat(left: nat)
    | BeatGot(socket: Socket, left: nat)
    | BeatRefund(left: nat)
    | BeatReturn(socket: Socket, left: nat)

  datatype State = State(
    capacity: nat,
    size: nat,
    pool: seq<Socket>,
    refs: map<Socket, int>,
    closed: set<Socket>,
    next: Socket,
    threads: map<nat, Pc>)

  /** `choice` decides what the environment decides: whether dialing succeeds, whether a wait is cut short by
      its timer, whether a heartbeat sees the process quit. */
  datatype Action = Get(t: nat) | Check(t: nat) | Release(t: nat) | Step(t: nat, choice: bool) | SocketCloses(s: Socket)

  /** The constructor fills the token channel before anyone else can see it. */
  function New(capacity: nat): State {
    State(capacity, capacity, [], map[], {}, 0, map[])
  }

  function At(s: State, t: nat): Pc {
    if t in s.threads then s.threads[t] else Idle
  }

  function Refs(s: State, x: Socket): int {
    if x in s.refs then s.refs[x] else 0
  }

  function Go(s: State, t: nat, pc: Pc): State {
    s.(threads := s.threads[t := pc])
  }

  /** Sends a token; a full channel blocks. */
  function SendToken(s: State, t: nat, then_: Pc): State {
    if s.size < s.capacity then Go(s.(size := s.size + 1), t, then_) else s
  }

  function SendSocket(s: State, t: nat, x: Socket, then_: Pc): State {
    if |s.pool| < s.capacity then Go(s.(pool := s.pool + [x]), t, then_) else s
  }

  /** Taking a socket: an idle one, else a new one, else the next that comes back. */
  function StepGet(s: State, t: nat, choice: bool): State {
    match At(s, t)
    case TryPool => if s.pool != [] then Go(s.(pool := s.pool[1..]), t, Counting(s.pool[0])) else Go(s, t, TrySize)
    case TrySize => if s.size > 0 then Go(s.(size := s.size - 1), t, Dialing) else Go(s, t, Waiting)
    case Dialing => if choice then Go(s.(next := s.next + 1), t, Dialed(s.next)) else Go(s, t, Refund)
    case Dialed(x) => Go(s, t, if x in s.closed then Refund else Counting(x))
    case Waiting =>
      if choice then Go(s, t, Idle)
      else if s.pool != [] then Go(s.(pool := s.pool[1..]), t, Counting(s.pool[0])) else s
    case Counting(x) => Go(s.(refs := s.refs[x := Refs(s, x) + 1]), t, Held(x))
    case _ => s
  }

  /** Giving a socket back, or its token when it is closed. */
  function StepRelease(s: State, t: nat): State {
    match At(s, t)
    case Uncounting(x) => Go(s.(refs := s.refs[x := Refs(s, x) - 1]), t, Releasing(x))
    case Releasing(x) => Go(s, t, if x in s.closed then Refund else Return(x))
    case Return(x) => SendSocket(s, t, x, Idle)
    case Refund => SendToken(s, t, Idle)
    case _ => s
  }

  /** The heartbeat takes each idle socket once and exchanges the closed ones for tokens. */
  function StepBeat(s: State, t: nat, choice: bool): State {
    match At(s, t)
    case Beat(left) =>
      if left == 0 || choice then Go(s, t, Idle)
      else if s.pool != [] then Go(s.(pool := s.pool[1..]), t, BeatGot(s.pool[0], left)) else Go(s, t, Beat(left - 1))
    case BeatGot(x, left) => Go(s, t, if x in s.closed then BeatRefund(left) else BeatReturn(x, left))
    case BeatRefund(left) => SendToken(s, t, Beat(if left > 0 then left - 1 else 0))
    case BeatReturn(x, left) => SendSocket(s, t, x, Beat(if left > 0 then left - 1 else 0))
    case _ => s
  }

  function StepThread(s: State, t: nat, choice: bool): State {
    var pc := At(s, t);
    if pc.Beat? || pc.BeatGot? || pc.BeatRefund? || pc.BeatReturn? then StepBeat(s, t, choice)
    else if pc.Uncounting? || pc.Releasing? || pc.Return? || pc.Refund? then StepRelease(s, t)
    else StepGet(s, t, choice)
  }

  function Do(s: State, a: Action): State {
    match a
    case Get(t) => if At(s, t).Idle? then Go(s, t, TryPool) else s
    case Check(t) => if At(s, t).Idle? then Go(s, t, Beat(|s.pool|)) else s
    case Release(t) => if At(s, t).Held? then Go(s, t, Uncounting(At(s, t).socket)) else s
    case Step(t, choice) => StepThread(s, t, choice)
    case SocketCloses(x) => s.(closed := s.closed + {x})
  }

  function After(capacity: nat, acts: seq<Action>): State {
    if acts == [] then New(capacity) else Do(After(capacity, acts[..|acts| - 1]), acts[|acts| - 1])
  }

  // ---- what every step keeps ----

  /** A goroutine that owes the pool a token or a socket. */
  predicate Owes(pc: Pc) {
    !(pc.Idle? || pc.TryPool? || pc.TrySize? || pc.Waiting? || pc.Beat?)
  }

  /** A goroutine that is alone with a socket. */
  predicate Has(pc: Pc) {
    pc.Dialed? || pc.Counting? || pc.Held? || pc.Uncounting? || pc.Releasing? || pc.Return? || pc.BeatGot?
        || pc.BeatReturn?
  }

  predicate Uses(pc: Pc) {
    pc.Held? || pc.Uncounting?
  }

  ghost function Debtors(s: State): set<nat> {
    set t | t in s.threads && Owes(s.threads[t])
  }

  ghost predicate Conserved(s: State) {
    s.size + |s.pool| + |Debtors(s)| == s.capacity
  }

  /** Every socket is in one place: idle in the pool, or with one goroutine. */
  ghost predicate Alone(s: State) {
    && (forall i :: 0 <= i < |s.pool| ==> s.pool[i] < s.next)
    && (forall i, j :: 0 <= i < j < |s.pool| ==> s.pool[i] != s.pool[j])
    && (forall t :: t in s.threads && Has(s.threads[t]) ==>
          s.threads[t].socket < s.next && s.threads[t].socket !in s.pool)
    && (forall t, u :: t in s.threads && u in s.threads && t != u && Has(s.threads[t]) && Has(s.threads[u]) ==>
          s.threads[t].socket != s.threads[u].socket)
  }

  /** The reference count of a socket says whether a goroutine is using it. */
  ghost predicate Counts(s: State) {
    && (forall t :: t in s.threads && Uses(s.threads[t]) ==> Refs(s, s.threads[t].socket) == 1)
    && (forall x :: Refs(s, x) != 0 ==> exists t :: t in s.threads && Uses(s.threads[t]) && s.threads[t].socket == x)
  }

  ghost predicate Inv(s: State) {
    Conserved(s) && Alone(s) && Counts(s)
  }

  lemma DebtorsAfter(s: State, t: nat, pc: Pc)
    ensures Debtors(Go(s, t, pc)) == if Owes(pc) then Debtors(s) + {t} else Debtors(s) - {t}
    ensures t in Debtors(s) <==> Owes(At(s, t))
  {
  }

  lemma OneMoreOrLess(debtors: set<nat>, t: nat)
    ensures |debtors + {t}| == |debtors| + if t in debtors then 0 else 1
    ensures |debtors - {t}| == |debtors| - if t in debtors then 1 else 0
  {
    if t in debtors {
      assert debtors + {t} == debtors;
    } else {
      assert debtors - {t} == debtors;
    }
  }

  /** A goroutine moves on, and what it owes changes by what it takes from or gives to the two channels. */
  lemma MovesConserve(s: State, t: nat, pc: Pc, v: State)
    requires Conserved(s) && v.capacity == s.capacity && v.threads == s.threads[t := pc]
    requires v.size + |v.pool| + (if Owes(pc) then 1 else 0) == s.size + |s.pool| + (if Owes(At(s, t)) then 1 else 0)
    ensures Conserved(v)
  {
    DebtorsAfter(s, t, pc);
    OneMoreOrLess(Debtors(s), t);
    assert Debtors(v) == Debtors(Go(s, t, pc));
  }

  /** The goroutine keeps its socket, loses it, or never had one. */
  lemma KeepOrDrop(s: State, t: nat, pc: Pc)
    requires Alone(s) && (Has(pc) ==> Has(At(s, t)) && pc.socket == At(s, t).socket)
    ensures Alone(Go(s, t, pc))
  {
  }

  lemma TakeIdle(s: State, t: nat, pc: Pc)
    requires Alone(s) && s.pool != [] && Has(pc) && pc.socket == s.pool[0]
    ensures Alone(Go(s.(pool := s.pool[1..]), t, pc))
  {
  }

  lemma TakeNew(s: State, t: nat, pc: Pc)
    requires Alone(s) && Has(pc) && pc.socket == s.next
    ensures Alone(Go(s.(next := s.next + 1), t, pc))
  {
  }

  lemma GiveBack(s: State, t: nat, pc: Pc)
    requires Alone(s) && Has(At(s, t)) && !Has(pc)
    ensures Alone(Go(s.(pool := s.pool + [At(s, t).socket]), t, pc))
  {
  }

  lemma AloneIgnores(s: State, size: nat, refs: map<Socket, int>, closed: set<Socket>)
    requires Alone(s)
    ensures Alone(s.(size := size, refs := refs, closed := closed))
  {
  }

  /** Nobody begins or ends using a socket. */
  lemma SameUse(s: State, t: nat, pc: Pc, v: State)
    requires Counts(s) && !Uses(pc) && !Uses(At(s, t)) && v.refs == s.refs && v.threads == s.threads[t := pc]
    ensures Counts(v)
  {
    forall x | Refs(v, x) != 0
      ensures exists u :: u in v.threads && Uses(v.threads[u]) && v.threads[u].socket == x
    {
      assert Refs(s, x) != 0;
      var u :| u in s.threads && Uses(s.threads[u]) && s.threads[u].socket == x;
      assert u in v.threads && v.threads[u] == s.threads[u];
    }
  }

  lemma BeginUse(s: State, t: nat)
    requires Alone(s) && Counts(s) && At(s, t).Counting?
    ensures Counts(StepThread(s, t, true)) && StepThread(s, t, false) == StepThread(s, t, true)
  {
    var v, mine := StepThread(s, t, true), At(s, t).socket;
    assert Refs(s, mine) == 0;
    forall x | Refs(v, x) != 0
      ensures exists u :: u in v.threads && Uses(v.threads[u]) && v.threads[u].socket == x
    {
      if x == mine {
        assert v.threads[t] == Held(mine);
      } else {
        assert Refs(s, x) != 0;
        var u :| u in s.threads && Uses(s.threads[u]) && s.threads[u].socket == x;
        assert u in v.threads && v.threads[u] == s.threads[u];
      }
    }
  }

  lemma EndUse(s: State, t: nat)
    requires Alone(s) && Counts(s) && At(s, t).Uncounting?
    ensures Counts(StepThread(s, t, true)) && StepThread(s, t, false) == StepThread(s, t, true)
  {
    var v, mine := StepThread(s, t, true), At(s, t).socket;
    forall x | Refs(v, x) != 0
      ensures exists u :: u in v.threads && Uses(v.threads[u]) && v.threads[u].socket == x
    {
      assert Refs(s, x) != 0 && x != mine;
      var u :| u in s.threads && Uses(s.threads[u]) && s.threads[u].socket == x;
      assert u in v.threads && v.threads[u] == s.threads[u];
    }
  }

  // ---- the kinds of steps ----

  function Debt(pc: Pc): nat {
    if Owes(pc) then 1 else 0
  }

  /** At most a token moves, and the goroutine has no other socket than before. */
  ghost predicate Plain(s: State, t: nat, pc: Pc, v: State) {
    && v == Go(s.(size := v.size), t, pc) && v.size + Debt(pc) == s.size + Debt(At(s, t))
    && (Has(pc) ==> Has(At(s, t)) && pc.socket == At(s, t).socket) && !Uses(pc) && !Uses(At(s, t))
  }

  ghost predicate Takes(s: State, t: nat, pc: Pc, v: State) {
    && s.pool != [] && v == Go(s.(pool := s.pool[1..]), t, pc) && Has(pc) && Owes(pc) && pc.socket == s.pool[0]
    && !Owes(At(s, t)) && !Uses(pc) && !Uses(At(s, t))
  }

  ghost predicate Creates(s: State, t: nat, pc: Pc, v: State) {
    v == Go(s.(next := s.next + 1), t, pc) && At(s, t).Dialing? && pc == Dialed(s.next)
  }

  ghost predicate Gives(s: State, t: nat, pc: Pc, v: State) {
    && Has(At(s, t)) && Owes(At(s, t)) && v == Go(s.(pool := s.pool + [At(s, t).socket]), t, pc)
    && !Owes(pc) && !Has(pc) && !Uses(pc) && !Uses(At(s, t))
  }

  ghost predicate Recounts(s: State, t: nat, pc: Pc, v: State) {
    At(s, t).Counting? || At(s, t).Uncounting?
  }

  ghost predicate Kind(s: State, t: nat, v: State) {
    var pc := At(v, t);
    v == s || Plain(s, t, pc, v) || Takes(s, t, pc, v) || Creates(s, t, pc, v) || Gives(s, t, pc, v)
        || Recounts(s, t, pc, v)
  }

  lemma GetKinds(s: State, t: nat, choice: bool)
    ensures Kind(s, t, StepGet(s, t, choice))
  {
  }

  lemma ReleaseKinds(s: State, t: nat)
    ensures Kind(s, t, StepRelease(s, t))
  {
  }

  lemma BeatKinds(s: State, t: nat, choice: bool)
    ensures Kind(s, t, StepBeat(s, t, choice))
  {
  }

  lemma StepKinds(s: State, t: nat, choice: bool)
    ensures Kind(s, t, StepThread(s, t, choice))
  {
    GetKinds(s, t, choice);
    ReleaseKinds(s, t);
    BeatKinds(s, t, choice);
  }

  lemma PlainKeeps(s: State, t: nat, pc: Pc, v: State)
    requires Inv(s) && Plain(s, t, pc, v)
    ensures Inv(v)
  {
    MovesConserve(s, t, pc, v);
    KeepOrDrop(s, t, pc);
    AloneIgnores(Go(s, t, pc), v.size, v.refs, v.closed);
    SameUse(s, t, pc, v);
  }

  lemma TakesKeeps(s: State, t: nat, pc: Pc, v: State)
    requires Inv(s) && Takes(s, t, pc, v)
    ensures Inv(v)
  {
    MovesConserve(s, t, pc, v);
    TakeIdle(s, t, pc);
    SameUse(s, t, pc, v);
  }

  lemma CreatesKeeps(s: State, t: nat, pc: Pc, v: State)
    requires Inv(s) && Creates(s, t, pc, v)
    ensures Inv(v)
  {
    MovesConserve(s, t, pc, v);
    TakeNew(s, t, pc);
    SameUse(s, t, pc, v);
  }

  lemma GivesKeeps(s: State, t: nat, pc: Pc, v: State)
    requires Inv(s) && Gives(s, t, pc, v)
    ensures Inv(v)
  {
    MovesConserve(s, t, pc, v);
    GiveBack(s, t, pc);
    SameUse(s, t, pc, v);
  }

  /** Only the reference counts change, and the goroutine keeps its socket. */
  lemma RecountKeepsRest(s: State, t: nat, pc: Pc, v: State)
    requires Conserved(s) && Alone(s) && Has(At(s, t)) && Has(pc) && pc.socket == At(s, t).socket
    requires Owes(pc) && Owes(At(s, t)) && v == Go(s, t, pc).(refs := v.refs)
    ensures Conserved(v) && Alone(v)
  {
    MovesConserve(s, t, pc, v);
    KeepOrDrop(s, t, pc);
    AloneIgnores(Go(s, t, pc), v.size, v.refs, v.closed);
  }

  lemma RecountsKeeps(s: State, t: nat, choice: bool)
    requires Inv(s) && Recounts(s, t, Idle, s)
    ensures Inv(StepThread(s, t, choice))
  {
    var v, x := StepThread(s, t, choice), At(s, t).socket;
    if At(s, t).Counting? {
      RecountKeepsRest(s, t, Held(x), v);
      BeginUse(s, t);
    } else {
      RecountKeepsRest(s, t, Releasing(x), v);
      EndUse(s, t);
    }
  }

  lemma StepKeeps(s: State, t: nat, choice: bool)
    requires Inv(s)
    ensures Inv(StepThread(s, t, choice))
  {
    var v := StepThread(s, t, choice);
    var pc := At(v, t);
    StepKinds(s, t, choice);
    if v == s {
    } else if Recounts(s, t, pc, v) {
      RecountsKeeps(s, t, choice);
    } else if Plain(s, t, pc, v) {
      PlainKeeps(s, t, pc, v);
    } else if Takes(s, t, pc, v) {
      TakesKeeps(s, t, pc, v);
    } else if Creates(s, t, pc, v) {
      CreatesKeeps(s, t, pc, v);
    } else {
      GivesKeeps(s, t, pc, v);
    }
  }

  /** Starting to get, to check or to release. */
  lemma StartKeeps(s: State, t: nat, pc: Pc)
    requires Inv(s) && Owes(pc) == Owes(At(s, t)) && Uses(pc) == Uses(At(s, t))
    requires Has(pc) ==> Has(At(s, t)) && pc.socket == At(s, t).socket
    ensures Inv(Go(s, t, pc))
  {
    MovesConserve(s, t, pc, Go(s, t, pc));
    KeepOrDrop(s, t, pc);
    var v := Go(s, t, pc);
    forall x | Refs(v, x) != 0
      ensures exists u :: u in v.threads && Uses(v.threads[u]) && v.threads[u].socket == x
    {
      assert Refs(s, x) != 0;
      var u :| u in s.threads && Uses(s.threads[u]) && s.threads[u].socket == x;
      assert u in v.threads && Uses(v.threads[u]) && v.threads[u].socket == x;
    }
  }

  lemma DoKeeps(s: State, a: Action)
    requires Inv(s)
    ensures Inv(Do(s, a))
  {
    match a
    case Get(t) => if At(s, t).Idle? { StartKeeps(s, t, TryPool); }
    case Check(t) => if At(s, t).Idle? { StartKeeps(s, t, Beat(|s.pool|)); }
    case Release(t) => if At(s, t).Held? { StartKeeps(s, t, Uncounting(At(s, t).socket)); }
    case Step(t, choice) => StepKeeps(s, t, choice);
    case SocketCloses(x) => CloseKeeps(s, x);
  }

  lemma CloseKeeps(s: State, x: Socket)
    requires Inv(s)
    ensures Inv(s.(closed := s.closed + {x}))
  {
    assert Debtors(s.(closed := s.closed + {x})) == Debtors(s);
    AloneIgnores(s, s.size, s.refs, s.closed + {x});
    CountsIgnore(s, s.closed + {x});
  }

  lemma CountsIgnore(s: State, closed: set<Socket>)
    requires Counts(s)
    ensures Counts(s.(closed := closed))
  {
    forall x
      ensures Refs(s.(closed := closed), x) == Refs(s, x)
    {
    }
  }

  lemma {:induction false} InvAlways(capacity: nat, acts: seq<Action>)
    ensures Inv(After(capacity, acts))
  {
    if acts == [] {
      assert Debtors(New(capacity)) == {};
    } else {
      InvAlways(capacity, acts[..|acts| - 1]);
      DoKeeps(After(capacity, acts[..|acts| - 1]), acts[|acts| - 1]);
    }
  }

  lemma {:induction false} SameCapacity(capacity: nat, acts: seq<Action>)
    ensures After(capacity, acts).capacity == capacity
  {
    if acts != [] { SameCapacity(capacity, acts[..|acts| - 1]); }
  }

  /** Tokens, idle sockets and debts always add up to the size of the pool. */
  lemma PoolConserved(capacity: nat, acts: seq<Action>)
    ensures var s := After(capacity, acts); s.size + |s.pool| + |Debtors(s)| == capacity
  {
    InvAlways(capacity, acts);
    SameCapacity(capacity, acts);
  }

  lemma DebtMakesRoom(s: State, t: nat)
    requires Conserved(s) && Owes(At(s, t))
    ensures s.size < s.capacity && |s.pool| < s.capacity
  {
    assert t in Debtors(s);
    assert |Debtors(s)| > 0;
  }

  /** No send on either channel ever blocks: the goroutine that is about to send always gets through. */
  lemma SendsNeverBlock(capacity: nat, acts: seq<Action>, t: nat, choice: bool)
    ensures var s := After(capacity, acts);
            At(s, t).Refund? || At(s, t).Return? || At(s, t).BeatRefund? || At(s, t).BeatReturn? ==>
              At(StepThread(s, t, choice), t) != At(s, t) && !Owes(At(StepThread(s, t, choice), t))
  {
    InvAlways(capacity, acts);
    var s := After(capacity, acts);
    if Owes(At(s, t)) { DebtMakesRoom(s, t); }
  }

  /** No two goroutines ever use the same socket, and none uses a socket that lies in the pool. */
  lemma SocketsAreExclusive(capacity: nat, acts: seq<Action>, t: nat, u: nat)
    ensures var s := After(capacity, acts);
            At(s, t).Held? ==>
              && At(s, t).socket !in s.pool
              && Refs(s, At(s, t).socket) == 1
              && (t != u && Has(At(s, u)) ==> At(s, u).socket != At(s, t).socket)
  {
    InvAlways(capacity, acts);
  }

  /** When everyone is done, nothing has leaked: the pool can again hand out all its sockets. */
  lemma QuietPoolIsWhole(capacity: nat, acts: seq<Action>)
    requires forall t :: t in After(capacity, acts).threads ==> !Owes(After(capacity, acts).threads[t])
    ensures var s := After(capacity, acts); s.size + |s.pool| == capacity
  {
    PoolConserved(capacity, acts);
    assert Debtors(After(capacity, acts)) == {};
  }
}
