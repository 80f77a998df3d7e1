/** The members registered for an event, and the turn-taking choice among them. */
module RoundRobin {
  import opened Options

  const TURNS: nat := 0x1_0000_0000

  /** A business connection: the object, and the name by which it is deleted. */
  datatype Member = Member(object_: nat, connId: string)

  function Chosen(members: seq<Member>, index: nat): Option<Member> {
    if members == [] then None else Some(members[index % |members|])
  }

  predicate Distinct(members: seq<Member>) {
    forall i, j :: 0 <= i < j < |members| ==> members[i] != members[j]
  }

  function FirstNamed(members: seq<Member>, connId: string): (k: nat)
    ensures k <= |members|
    ensures k < |members| ==> members[k].connId == connId
    ensures forall j :: 0 <= j < k ==> members[j].connId != connId
  {
    if members == [] || members[0].connId == connId then 0 else 1 + FirstNamed(members[1..], connId)
  }

  class Collect {
    var conn: seq<Member>
    var index: nat

    ghost predicate Valid()
      reads this
    {
      Distinct(conn) && index < TURNS
    }

    constructor ()
      ensures Valid() && conn == [] && index == 0
    {
      conn, index := [], 0;
    }

    /** Advances the 32-bit counter even when there is nobody to choose. */
    method Get() returns (m: Option<Member>)
      requires Valid()
      modifies this`index
      ensures Valid() && index == (old(index) + 1) % TURNS && m == Chosen(conn, index)
    {
      index := (index + 1) % TURNS;
      if |conn| == 0 { return None; }
      return Some(conn[index % |conn|]);
    }

    /** Registers a member once, at the end. */
    method Set(m: Member)
      requires Valid()
      modifies this`conn
      ensures Valid() && conn == if m in old(conn) then old(conn) else old(conn) + [m]
    {
      var known := false;
      for k := 0 to |conn|
        invariant known <==> m in conn[..k]
      {
        if conn[k] == m {
          known := true;
          assert m in conn[..k + 1];
          break;
        }
      }
      if !known { conn := conn + [m]; }
    }

    /** Removes the first member of that name; the others keep their order. */
    method Del(connId: string) returns (found: bool)
      requires Valid()
      modifies this`conn
      ensures Valid()
      ensures var k := FirstNamed(old(conn), connId);
              && found == (connId != "" && k < |old(conn)|)
              && conn == if found then old(conn)[..k] + old(conn)[k + 1..] else old(conn)
    {
      if connId == "" { return false; }
      for k := 0 to |conn|
        invariant conn == old(conn)
        invariant forall j :: 0 <= j < k ==> conn[j].connId != connId
      {
        if conn[k].connId == connId {
          assert FirstNamed(conn, connId) == k;
          conn := conn[..k] + conn[k + 1..];
          return true;
        }
      }
      return false;
    }

    /** `n` choices in a row while nobody joins or leaves. */
    method GetMany(n: nat) returns (chosen: seq<Member>)
      requires Valid() && conn != []
      modifies this`index
      ensures Valid() && |chosen| == n
      ensures forall j :: 0 <= j < n ==> chosen[j] == conn[Turn(old(index), j + 1, |conn|)]
      ensures forall m :: 0 <= m < |conn| ==> multiset(chosen)[conn[m]] == Count(old(index), n, |conn|, m)
    {
      chosen := [];
      for i := 0 to n
        invariant Valid() && |chosen| == i && index == (old(index) + i) % TURNS
        invariant forall j :: 0 <= j < i ==> chosen[j] == conn[Turn(old(index), j + 1, |conn|)]
      {
        var m := Get();
        CountUp(old(index) + i);
        chosen := chosen + [m.value];
      }
      forall m | 0 <= m < |conn|
        ensures multiset(chosen)[conn[m]] == Count(old(index), n, |conn|, m)
      {
        ChosenCount(conn, chosen, old(index), m);
      }
    }
  }

  lemma CountUp(x: nat)
    ensures (x % TURNS + 1) % TURNS == (x + 1) % TURNS
  {
  }

  // ---- fairness ----

  /** The place in the list of the `j`-th choice after counter value `start`. */
  function Turn(start: nat, j: nat, members: nat): (k: nat)
    requires members > 0
    ensures k < members
  {
    (start + j) % TURNS % members
  }

  /** How often place `m` comes up in `n` choices after counter value `start`. */
  function Count(start: nat, n: nat, members: nat, m: nat): nat
    requires members > 0
  {
    if n == 0 then 0 else Count(start, n - 1, members, m) + if Turn(start, n, members) == m then 1 else 0
  }

  /** Counting places is counting members. */
  lemma {:induction false} ChosenCount(members: seq<Member>, chosen: seq<Member>, start: nat, m: nat)
    requires Distinct(members) && m < |members|
    requires forall j :: 0 <= j < |chosen| ==> chosen[j] == members[Turn(start, j + 1, |members|)]
    ensures multiset(chosen)[members[m]] == Count(start, |chosen|, |members|, m)
  {
    if chosen != [] {
      var n := |chosen| - 1;
      ChosenCount(members, chosen[..n], start, m);
      assert chosen == chosen[..n] + [chosen[n]];
      assert chosen[n] == members[Turn(start, n + 1, |members|)];
    }
  }

  /** No two members are chosen a different number of times by more than one. */
  ghost predicate Fair(start: nat, n: nat, members: nat)
    requires members > 0
  {
    forall a, b :: 0 <= a < members && 0 <= b < members
        ==> Count(start, n, members, a) <= Count(start, n, members, b) + 1
  }

  /** Numbers up to `x` that leave remainder `m`. */
  function Below(x: nat, members: nat, m: nat): nat
    requires m < members
  {
    (x + members - m) / members
  }

  lemma BelowStep(x: nat, members: nat, m: nat)
    requires m < members
    ensures Below(x + 1, members, m) == Below(x, members, m) + if (x + 1) % members == m then 1 else 0
  {
    var y := x + members - m;
    var q, r := Divided(y, members);
    if r + 1 == members {
      Distribute(q, 1, members);
      Quotient(y + 1, members, q + 1, 0);
      Remainder(x + 1, members, m, q);
    } else {
      Quotient(y + 1, members, q, r + 1);
      NotThatRemainder(x + 1, members, m, q, r + 1);
    }
  }

  /** A sum that is not a multiple leaves another remainder. */
  lemma NotThatRemainder(x: nat, d: nat, m: nat, q: nat, r: nat)
    requires m < d && x + d - m == q * d + r && 0 < r < d
    ensures x % d != m
  {
    var p, s := Divided(x, d);
    if s == m {
      Distribute(p, 1, d);
      SameQuotient(d, p + 1, 0, q, r);
    }
  }

  lemma MulGap(a: nat, b: nat, d: nat)
    requires a < b
    ensures a * d + d <= b * d
  {
    var c := b - a - 1;
    Distribute(a + 1, c, d);
    Distribute(a, 1, d);
    assert b == (a + 1) + c && c * d >= 0;
  }

  lemma SameQuotient(d: nat, q: nat, r: nat, q': nat, r': nat)
    requires q * d + r == q' * d + r' && r < d && r' < d
    ensures q == q' && r == r'
  {
    if q < q' { MulGap(q, q', d); }
    if q' < q { MulGap(q', q, d); }
  }

  lemma Quotient(y: nat, d: nat, q: nat, r: nat)
    requires d > 0 && y == q * d + r && r < d
    ensures y / d == q && y % d == r
  {
    SameQuotient(d, q, r, y / d, y % d);
  }

  lemma Remainder(x: nat, d: nat, m: nat, q: nat)
    requires m < d && x + d - m == (q + 1) * d
    ensures x % d == m
  {
    assert x == q * d + m;
    Quotient(x, d, q, m);
  }

  /** While the counter does not wrap, or wrapping makes no difference, the choices walk round the list. */
  ghost predicate Steady(start: nat, n: nat, members: nat)
    requires members > 0
  {
    start + n < TURNS || TURNS % members == 0
  }

  lemma WrapMakesNoDifference(x: nat, members: nat)
    requires members > 0 && TURNS % members == 0
    ensures x % TURNS % members == x % members
  {
    var k, q := TURNS / members, x / TURNS;
    assert TURNS == k * members;
    var y := x % TURNS;
    var p, r := y / members, y % members;
    assert x == q * TURNS + y && y == p * members + r;
    assert q * TURNS == (q * k) * members;
    assert x == (q * k + p) * members + r;
    Quotient(x, members, q * k + p, r);
  }

  lemma {:induction false} CountIsBelow(start: nat, n: nat, members: nat, m: nat)
    requires m < members && Steady(start, n, members)
    ensures Count(start, n, members, m) == Below(start + n, members, m) - Below(start, members, m)
  {
    if n > 0 {
      CountIsBelow(start, n - 1, members, m);
      BelowStep(start + n - 1, members, m);
      SteadyPlace(start, n, members);
    }
  }

  lemma SteadyPlace(start: nat, n: nat, members: nat)
    requires members > 0 && Steady(start, n, members)
    ensures Turn(start, n, members) == (start + n) % members
  {
    if start + n >= TURNS {
      WrapMakesNoDifference(start + n, members);
    } else {
      assert (start + n) % TURNS == start + n;
    }
  }

  /** Each member gets its share, rounded down or up. */
  lemma Share(start: nat, n: nat, members: nat, m: nat)
    requires m < members && Steady(start, n, members)
    ensures n / members <= Count(start, n, members, m) <= n / members + 1
    ensures n % members == 0 ==> Count(start, n, members, m) == n / members
  {
    CountIsBelow(start, n, members, m);
    QuotientOfSum(start + members - m, n, members);
  }

  lemma Distribute(p: nat, q: nat, d: nat)
    ensures (p + q) * d == p * d + q * d
  {
  }

  lemma Divided(a: nat, d: nat) returns (q: nat, r: nat)
    requires d > 0
    ensures q == a / d && r == a % d && a == q * d + r && r < d
  {
    q, r := a / d, a % d;
  }

  lemma QuotientOfSum(a: nat, n: nat, d: nat)
    requires d > 0
    ensures a / d + n / d <= (a + n) / d <= a / d + n / d + 1
    ensures n % d == 0 ==> (a + n) / d == a / d + n / d
  {
    var p, r := Divided(a, d);
    var q, s := Divided(n, d);
    Distribute(p, q, d);
    if r + s < d {
      Quotient(a + n, d, p + q, r + s);
    } else {
      Distribute(p + q, 1, d);
      Quotient(a + n, d, p + q + 1, r + s - d);
    }
  }

  /** Fair as long as the counter does not wrap. */
  lemma FairWithoutWrap(start: nat, n: nat, members: nat)
    requires members > 0 && Steady(start, n, members)
    ensures Fair(start, n, members)
  {
    forall a, b | 0 <= a < members && 0 <= b < members
      ensures Count(start, n, members, a) <= Count(start, n, members, b) + 1
    {
      Share(start, n, members, a);
      Share(start, n, members, b);
    }
  }

  /** The choices just before the wrap start the list and do not finish it. */
  lemma {:induction false} LastTurns(members: nat, rounds: nat, r: nat, n: nat, m: nat)
    requires 0 < members && TURNS == rounds * members + r && 0 < r < members && r < TURNS && n <= r && m < members
    ensures Count(TURNS - r - 1, n, members, m) == if m < n then 1 else 0
  {
    if n > 0 {
      LastTurns(members, rounds, r, n - 1, m);
      var x := TURNS - r - 1 + n;
      assert x == rounds * members + (n - 1);
      Quotient(x, members, rounds, n - 1);
      assert x < TURNS && x % TURNS == x;
    }
  }

  lemma FirstAgain(members: nat, rounds: nat, r: nat)
    requires 0 < members && TURNS == rounds * members + r && 0 < r < members && r < TURNS
    ensures Count(TURNS - r - 1, r + 1, members, 0) == 2 && Count(TURNS - r - 1, r + 1, members, r) == 0
  {
    LastTurns(members, rounds, r, r, 0);
    LastTurns(members, rounds, r, r, r);
    assert TURNS - r - 1 + (r + 1) == TURNS;
    Quotient(0, members, 0, 0);
    assert Turn(TURNS - r - 1, r + 1, members) == 0;
  }

  /** If the number of members does not divide 2^32, the wrap chooses the first member twice before some other
      member once. */
  lemma UnfairAtTheWrap(members: nat, r: nat)
    requires 0 < members < TURNS && r == TURNS % members && r != 0
    ensures !Fair(TURNS - r - 1, r + 1, members)
  {
    var rounds, _ := Divided(TURNS, members);
    FirstAgain(members, rounds, r);
  }

  /** Fair in every run, whatever the counter, exactly when the number of members divides 2^32. */
  lemma FairAlwaysIff(members: nat)
    requires 0 < members < TURNS
    ensures (forall start: nat, n: nat :: start < TURNS ==> Fair(start, n, members)) <==> TURNS % members == 0
  {
    if TURNS % members == 0 {
      forall start: nat, n: nat | start < TURNS
        ensures Fair(start, n, members)
      {
        FairWithoutWrap(start, n, members);
      }
    } else {
      UnfairAtTheWrap(members, TURNS % members);
    }
  }
}
