/** The wire carries whole packets in queue order, and at most one torn packet at its end. */
module WorkerTheorems {
  import opened Octets
  import opened PacketStream
  import opened WorkerLine

  // ---- wire and log ----

  function Cut(bytes: seq<Byte>, n: nat): seq<Byte> {
    if n < |bytes| then bytes[..n] else bytes
  }

  function Parts(log: seq<Fate>): seq<Byte> {
    if log == [] then [] else Cut(Bytes(log[0].packet), log[0].written) + Parts(log[1..])
  }

  function Packets(log: seq<Fate>): seq<Packet> {
    seq(|log|, i requires 0 <= i < |log| => log[i].packet)
  }

  lemma {:induction false} PartsJoined(a: seq<Fate>, b: seq<Fate>)
    ensures Parts(a + b) == Parts(a) + Parts(b)
  {
    if a == [] {
      assert a + b == b;
    } else {
      assert (a + b)[1..] == a[1..] + b;
      PartsJoined(a[1..], b);
    }
  }

  lemma CutOfTwo(a: seq<Byte>, b: seq<Byte>, n: nat)
    ensures Cut(a + b, n) == if n < |a| then Cut(a, n) else a + Cut(b, n - |a|)
    ensures Cut(a, 0) == []
  {
  }

  lemma {:induction false} NothingWritten(ps: seq<Packet>)
    ensures Parts(Spread(ps, 0)) == [] && |Spread(ps, 0)| == |ps|
    ensures forall i :: 0 <= i < |ps| ==> Spread(ps, 0)[i].written == 0
  {
    if ps != [] { NothingWritten(ps[1..]); }
  }

  /** The bytes of one call are accounted for packet by packet. */
  lemma {:induction false} SpreadIsWritten(ps: seq<Packet>, n: nat)
    ensures Parts(Spread(ps, n)) == Cut(AllBytes(ps), n)
    decreases |ps|
  {
    if ps != [] {
      var first := Bytes(ps[0]);
      CutOfTwo(first, AllBytes(ps[1..]), n);
      if n < |first| {
        NothingWritten(ps[1..]);
      } else {
        SpreadIsWritten(ps[1..], n - |first|);
      }
    }
  }

  lemma {:induction false} SpreadPackets(ps: seq<Packet>, n: nat)
    ensures Packets(Spread(ps, n)) == ps
    decreases |ps|
  {
    if ps != [] {
      var w := if n < |Bytes(ps[0])| then n else |Bytes(ps[0])|;
      SpreadPackets(ps[1..], n - w);
      var rest := Spread(ps[1..], n - w);
      assert Packets([Fate(ps[0], w)] + rest) == [ps[0]] + Packets(rest);
    }
  }

  // ---- alignment ----

  predicate Torn(f: Fate) {
    0 < f.written < |Bytes(f.packet)|
  }

  /** Nothing is written after a torn packet. */
  predicate Aligned(log: seq<Fate>) {
    forall i, j :: 0 <= i < j < |log| && Torn(log[i]) ==> log[j].written == 0
  }

  predicate AnyTorn(log: seq<Fate>) {
    exists i :: 0 <= i < |log| && Torn(log[i])
  }

  predicate Silent(log: seq<Fate>) {
    forall i :: 0 <= i < |log| ==> log[i].written == 0
  }

  lemma AlignedJoined(a: seq<Fate>, b: seq<Fate>)
    requires Aligned(a) && Aligned(b) && (AnyTorn(a) ==> Silent(b))
    ensures Aligned(a + b)
    ensures AnyTorn(a + b) <==> AnyTorn(a) || AnyTorn(b)
  {
    if i :| 0 <= i < |a| && Torn(a[i]) { assert Torn((a + b)[i]); }
    if i :| 0 <= i < |b| && Torn(b[i]) { assert Torn((a + b)[|a| + i]); }
  }

  /** Within one call a torn packet is the last one of which anything was written. */
  lemma {:induction false} SpreadAligned(ps: seq<Packet>, n: nat)
    ensures Aligned(Spread(ps, n))
    ensures n == 0 || n >= |AllBytes(ps)| ==> !AnyTorn(Spread(ps, n))
    ensures n == 0 ==> Silent(Spread(ps, n))
    decreases |ps|
  {
    if ps != [] {
      var w := if n < |Bytes(ps[0])| then n else |Bytes(ps[0])|;
      var first, rest := [Fate(ps[0], w)], Spread(ps[1..], n - w);
      SpreadAligned(ps[1..], n - w);
      AlignedJoined(first, rest);
      assert AnyTorn(first) <==> Torn(first[0]);
    }
  }

  // ---- one call ----

  /** The line as the wire shows it: accounted for, aligned, and shut once a packet is torn. */
  ghost predicate Good(l: Line) {
    l.wire == Parts(l.log) && Aligned(l.log) && (AnyTorn(l.log) ==> l.shut) && (l.lock <==> l.foreign || l.shut)
  }

  /** The close lock is held by another goroutine that has not closed the socket yet. */
  predicate Window(l: Line) {
    l.foreign && !l.shut
  }

  /** The call writes something, fails, and finds the close lock taken by someone who is not done closing. */
  predicate Unlucky(env: Script, l: Line, ps: seq<Packet>) {
    Attempted(env, l) && !Send(env, l, ps).ok && Send(env, l, ps).through != 0 && Window(Written(env, l, ps))
  }

  lemma Joining(l: Line, ps: seq<Packet>, n: nat)
    requires l.wire == Parts(l.log) && Aligned(l.log) && !AnyTorn(l.log) && n <= |AllBytes(ps)|
    ensures var log := l.log + Spread(ps, n);
            && l.wire + AllBytes(ps)[..n] == Parts(log) && Aligned(log)
            && (AnyTorn(log) <==> AnyTorn(Spread(ps, n)))
            && (n == 0 || n == |AllBytes(ps)| ==> !AnyTorn(log))
  {
    PartsJoined(l.log, Spread(ps, n));
    SpreadIsWritten(ps, n);
    SpreadAligned(ps, n);
    AlignedJoined(l.log, Spread(ps, n));
    assert AllBytes(ps)[..n] == Cut(AllBytes(ps), n);
  }

  lemma Skipping(l: Line, ps: seq<Packet>)
    requires l.wire == Parts(l.log) && Aligned(l.log)
    ensures var log := l.log + Spread(ps, 0);
            l.wire == Parts(log) && Aligned(log) && (AnyTorn(log) <==> AnyTorn(l.log))
  {
    PartsJoined(l.log, Spread(ps, 0));
    NothingWritten(ps);
    SpreadAligned(ps, 0);
    AlignedJoined(l.log, Spread(ps, 0));
    assert Parts(l.log) + [] == Parts(l.log);
  }

  lemma MeddleKeeps(l: Line, c: Closing)
    requires l.lock <==> l.foreign || l.shut
    ensures var m := Meddle(l, c);
            && m.wire == l.wire && m.log == l.log && (l.shut ==> m.shut)
            && (m.lock <==> m.foreign || m.shut)
  {
  }

  /** What the write itself leaves: everything but, perhaps, the closing after a torn packet. */
  lemma WrittenKeeps(env: Script, l: Line, ps: seq<Packet>)
    requires Good(l) && Attempted(env, l)
    ensures var w := Written(env, l, ps);
            && w.wire == Parts(w.log) && Aligned(w.log) && (w.lock <==> w.foreign || w.shut)
            && (AnyTorn(w.log) ==> !env(l.sends).ok && Through(env, l, ps) != 0)
  {
    var m, n := Ready(env, l), Through(env, l, ps);
    MeddleKeeps(l.(sends := l.sends + 1), env(l.sends).before);
    Joining(m, ps, n);
    MeddleKeeps(m.(wire := m.wire + AllBytes(ps)[..n], log := m.log + Spread(ps, n)), env(l.sends).after);
  }

  /** Every call keeps the wire good, unless it is unlucky. */
  lemma SendKeeps(env: Script, l: Line, ps: seq<Packet>)
    requires Good(l) && !Unlucky(env, l, ps)
    ensures Good(Send(env, l, ps).l)
  {
    if !Attempted(env, l) {
      MeddleKeeps(l.(sends := l.sends + 1), env(l.sends).before);
      Skipping(Ready(env, l), ps);
    } else {
      WrittenKeeps(env, l, ps);
    }
  }

  /** What the loop is after one call. */
  function Outcome(env: Script, l: Line, ps: seq<Packet>): Sender {
    var s := Send(env, l, ps);
    if Panics(ps, s, Attempted(env, l)) then Ended(s.l, []) else Running(s.l, [])
  }

  /** A packet torn in this call is the end of the stream, whatever batches follow in whatever weather, exactly
      when the close lock was not held by someone who had yet to close the socket, or the failure log has ended
      the loop. */
  lemma TornIsTheEndIff(env: Script, l: Line, ps: seq<Packet>)
    requires Good(l) && !AnyTorn(l.log) && Attempted(env, l) && AnyTorn(Send(env, l, ps).l.log)
    ensures (forall later: Script, limit: nat, batches: seq<seq<Packet>> ::
               Aligned(Continue(later, limit, Outcome(env, l, ps), batches).l.log))
            <==> !Window(Written(env, l, ps)) || Outcome(env, l, ps).Ended?
  {
    var s := Send(env, l, ps);
    WrittenKeeps(env, l, ps);
    if Window(Written(env, l, ps)) && Outcome(env, l, ps).Running? {
      assert s.l == Written(env, l, ps);
      var calm := OpenLineGoesOn(s.l);
      var q := Packet(0, [], 0);
      OneBatch(calm, Running(s.l, []), q);
      assert !Aligned(Continue(calm, 100, Outcome(env, l, ps), [[q]]).l.log);
    } else {
      forall later: Script, limit: nat, batches: seq<seq<Packet>>
        ensures Aligned(Continue(later, limit, Outcome(env, l, ps), batches).l.log)
      {
        if Outcome(env, l, ps).Ended? {
          EndedStays(later, limit, Outcome(env, l, ps), batches);
        } else {
          SendKeeps(env, l, ps);
          ShutStaysGood(later, limit, Outcome(env, l, ps), batches);
        }
      }
    }
  }

  lemma OneBatch(env: Script, s: Sender, q: Packet)
    requires s.Running? && q.body == []
    ensures Continue(env, 100, s, [[q]]).l == Send(env, s.l, [q]).l
  {
    assert [[q]][..0] == [] && Continue(env, 100, s, []) == s;
    assert [q][..0] == [] && Size([q]) == 8;
  }

  lemma {:induction false} EndedStays(env: Script, limit: nat, s: Sender, batches: seq<seq<Packet>>)
    requires s.Ended?
    ensures Continue(env, limit, s, batches) == s
  {
    if batches != [] { EndedStays(env, limit, s, batches[..|batches| - 1]); }
  }

  /** On a shut line nothing is attempted, so nothing can be unlucky. */
  lemma ShutKeeps(env: Script, l: Line, ps: seq<Packet>)
    requires Good(l) && l.shut
    ensures Good(Send(env, l, ps).l) && Send(env, l, ps).l.shut && Send(env, l, ps).l.wire == l.wire
  {
    SendKeeps(env, l, ps);
  }

  lemma {:induction false} ShutKeepsEach(env: Script, l: Line, ps: seq<Packet>)
    requires Good(l) && l.shut
    ensures var v := SendOneByOne(env, l, ps).0; Good(v) && v.shut && v.wire == l.wire
    decreases |ps|
  {
    if ps != [] {
      ShutKeeps(env, l, [ps[0]]);
      ShutKeepsEach(env, Send(env, l, [ps[0]]).l, ps[1..]);
    }
  }

  /** A shut line stays as it is, whatever batches follow. */
  lemma {:induction false} ShutStaysGood(env: Script, limit: nat, s: Sender, batches: seq<seq<Packet>>)
    requires Good(s.l) && s.l.shut
    ensures var v := Continue(env, limit, s, batches).l; Good(v) && v.shut && v.wire == s.l.wire
  {
    if batches != [] {
      var before, ps := batches[..|batches| - 1], batches[|batches| - 1];
      ShutStaysGood(env, limit, s, before);
      var v := Continue(env, limit, s, before);
      ShutKeeps(env, v.l, ps);
      ShutKeepsEach(env, v.l, ps);
    }
  }

  /** The window is reachable: the first write is cut inside its only body while another goroutine has just
      taken the close lock. */
  lemma WindowIsReachable() returns (env: Script, ps: seq<Packet>)
    ensures Good(NEW) && Attempted(env, NEW) && AnyTorn(Send(env, NEW, ps).l.log)
    ensures Window(Written(env, NEW, ps)) && Outcome(env, NEW, ps).Running?
    ensures After(env, 100, [ps]).Running? && After(env, 100, [ps]).l == Send(env, NEW, ps).l
  {
    ps := [ONE];
    env := n => Weather(Closing(false, false), true, false, 8, Closing(true, false));
    HeaderOfOne();
    assert Through(env, NEW, ps) == 8;
    assert Send(env, NEW, ps).l.log == [Fate(ONE, 8)] && Torn(Send(env, NEW, ps).l.log[0]);
    OnlyBodyLeft(ONE);
    OneSmallBatch(env, NEW, ps);
  }

  /** A packet with a body of one byte. */
  const ONE: Packet := Packet(0, [0], 1)

  lemma HeaderOfOne()
    ensures |AllBytes([ONE])| == 9 && Size([ONE]) == 9 && Spread([ONE], 8) == [Fate(ONE, 8)]
  {
    assert AllBytes([]) == [] && [ONE][1..] == [] && [ONE][..0] == [] && Size([]) == 0 && Spread([], 0) == [];
  }

  lemma OneSmallBatch(env: Script, l: Line, ps: seq<Packet>)
    requires l == NEW && Size(ps) < 100 && !Panics(ps, Send(env, l, ps), Attempted(env, l))
    ensures After(env, 100, [ps]) == Running(Send(env, l, ps).l, ps)
  {
    assert [ps][..0] == [] && Continue(env, 100, Running(NEW, []), []) == Running(NEW, []);
    assert [] + ps == ps;
  }

  lemma OnlyBodyLeft(p: Packet)
    requires |p.body| > 0
    ensures !LogPanics(Consume(Pieces([p]), 8))
  {
    var pieces := Pieces([p]);
    assert Pieces([]) == [] && [p][1..] == [];
    assert pieces == [Piece(Header(p), 8), Piece(p.body, p.capacity)] + Pieces([p][1..]);
    assert pieces[1..] == [Piece(p.body, p.capacity)];
  }

  /** A line that is torn but not shut carries on when the weather is good. */
  lemma OpenLineGoesOn(l: Line) returns (calm: Script)
    requires AnyTorn(l.log) && !l.shut
    ensures !Aligned(Send(calm, l, [Packet(0, [], 0)]).l.log)
  {
    var q := Packet(0, [], 0);
    calm := n => Weather(Closing(false, false), true, true, 0, Closing(false, false));
    var next := Send(calm, l, [q]).l;
    assert AllBytes([q]) == Bytes(q);
    assert Spread([q], 8) == [Fate(q, 8)] by { assert [q][1..] == []; }
    assert Through(calm, l, [q]) == 8;
    assert next.log == l.log + [Fate(q, 8)];
    var i :| 0 <= i < |l.log| && Torn(l.log[i]);
    assert Torn(next.log[i]) && next.log[|l.log|].written == 8;
  }

  // ---- whole runs ----

  /** No call of the batch is unlucky. */
  predicate LuckyEach(env: Script, l: Line, ps: seq<Packet>)
    decreases |ps|
  {
    ps == [] || (!Unlucky(env, l, [ps[0]]) &&
      (Panics([ps[0]], Send(env, l, [ps[0]]), Attempted(env, l)) || LuckyEach(env, Send(env, l, [ps[0]]).l, ps[1..])))
  }

  predicate LuckyBatch(env: Script, limit: nat, s: Sender, ps: seq<Packet>) {
    s.Ended? || if Size(ps) < limit then !Unlucky(env, s.l, ps) else LuckyEach(env, s.l, ps)
  }

  predicate LuckyRun(env: Script, limit: nat, batches: seq<seq<Packet>>) {
    batches == [] ||
      (LuckyRun(env, limit, batches[..|batches| - 1])
       && LuckyBatch(env, limit, After(env, limit, batches[..|batches| - 1]), batches[|batches| - 1]))
  }

  lemma {:induction false} EachKeeps(env: Script, l: Line, ps: seq<Packet>)
    requires Good(l) && LuckyEach(env, l, ps)
    ensures Good(SendOneByOne(env, l, ps).0)
    decreases |ps|
  {
    if ps != [] {
      SendKeeps(env, l, [ps[0]]);
      var s := Send(env, l, [ps[0]]);
      if !Panics([ps[0]], s, Attempted(env, l)) { EachKeeps(env, s.l, ps[1..]); }
    }
  }

  /** Whatever the transport does to each write: the wire is the packets in order, none of them or all of it or,
      once, the front of one; and after that one the connection is shut. */
  lemma {:induction false} WireIsAligned(env: Script, limit: nat, batches: seq<seq<Packet>>)
    requires LuckyRun(env, limit, batches)
    ensures Good(After(env, limit, batches).l)
  {
    if batches != [] {
      var before, ps := batches[..|batches| - 1], batches[|batches| - 1];
      WireIsAligned(env, limit, before);
      var s := After(env, limit, before);
      if s.Running? {
        if Size(ps) < limit { SendKeeps(env, s.l, ps); } else { EachKeeps(env, s.l, ps); }
      }
    }
  }

  /** Closers that close the socket in the same breath in which they take the lock. */
  ghost predicate PromptClosers(env: Script) {
    forall n :: (env(n).before.lock ==> env(n).before.shut) && (env(n).after.lock ==> env(n).after.shut)
  }

  lemma PromptIsLucky(env: Script, l: Line, ps: seq<Packet>)
    requires PromptClosers(env) && !Window(l)
    ensures !Unlucky(env, l, ps) && !Window(Send(env, l, ps).l)
  {
  }

  lemma {:induction false} PromptIsLuckyEach(env: Script, l: Line, ps: seq<Packet>)
    requires PromptClosers(env) && !Window(l)
    ensures LuckyEach(env, l, ps) && !Window(SendOneByOne(env, l, ps).0)
    decreases |ps|
  {
    if ps != [] {
      PromptIsLucky(env, l, [ps[0]]);
      PromptIsLuckyEach(env, Send(env, l, [ps[0]]).l, ps[1..]);
    }
  }

  lemma {:induction false} PromptIsLuckyRun(env: Script, limit: nat, batches: seq<seq<Packet>>)
    requires PromptClosers(env)
    ensures LuckyRun(env, limit, batches) && !Window(After(env, limit, batches).l)
  {
    if batches != [] {
      var before, ps := batches[..|batches| - 1], batches[|batches| - 1];
      PromptIsLuckyRun(env, limit, before);
      PromptIsLucky(env, After(env, limit, before).l, ps);
      PromptIsLuckyEach(env, After(env, limit, before).l, ps);
    }
  }

  // ---- order, ownership ----

  function Concat(batches: seq<seq<Packet>>): seq<Packet> {
    if batches == [] then [] else Concat(batches[..|batches| - 1]) + batches[|batches| - 1]
  }

  lemma PacketsJoined(a: seq<Fate>, b: seq<Fate>)
    ensures Packets(a + b) == Packets(a) + Packets(b)
  {
  }

  lemma SendLogs(env: Script, l: Line, ps: seq<Packet>)
    ensures Packets(Send(env, l, ps).l.log) == Packets(l.log) + ps
  {
    var n := if Attempted(env, l) then Through(env, l, ps) else 0;
    PacketsJoined(l.log, Spread(ps, n));
    SpreadPackets(ps, n);
  }

  lemma {:induction false} EachLogs(env: Script, l: Line, ps: seq<Packet>)
    ensures var (v, alive) := SendOneByOne(env, l, ps);
            Packets(l.log) <= Packets(v.log) <= Packets(l.log) + ps && (alive ==> Packets(v.log) == Packets(l.log) + ps)
    decreases |ps|
  {
    if ps != [] {
      SendLogs(env, l, [ps[0]]);
      var s := Send(env, l, [ps[0]]);
      assert Packets(l.log) + [ps[0]] + ps[1..] == Packets(l.log) + ps by { assert ps == [ps[0]] + ps[1..]; }
      EachLogs(env, s.l, ps[1..]);
    } else {
      assert Packets(l.log) + ps == Packets(l.log);
    }
  }

  /** Packets go to the wire in queue order, and each goes back to the object pool once: all of them while the
      sender runs, all but those of the last batch when the failure log has ended it. */
  lemma {:induction false} InOrderAndReturnedOnce(env: Script, limit: nat, batches: seq<seq<Packet>>)
    ensures var s := After(env, limit, batches);
            && s.returned <= Packets(s.l.log) <= Concat(batches)
            && (s.Running? ==> s.returned == Packets(s.l.log) == Concat(batches))
  {
    if batches != [] {
      var before, ps := batches[..|batches| - 1], batches[|batches| - 1];
      InOrderAndReturnedOnce(env, limit, before);
      var s := After(env, limit, before);
      SendLogs(env, s.l, ps);
      EachLogs(env, s.l, ps);
    }
  }

  // ---- when the failure log ends the sender ----

  lemma ConsumeWhole(p: Packet, rest: seq<Piece>, n: nat)
    requires n >= |Bytes(p)|
    ensures var first := [Piece(Header(p), 8), Piece(p.body, p.capacity)];
            Consume(first + rest, n) == Consume(rest, n - |Bytes(p)|)
  {
    var first := [Piece(Header(p), 8), Piece(p.body, p.capacity)];
    assert (first + rest)[1..] == [Piece(p.body, p.capacity)] + rest;
    assert ([Piece(p.body, p.capacity)] + rest)[1..] == rest;
  }

  lemma ConsumeNothing(ps: seq<Packet>)
    ensures Consume(Pieces(ps), 0) == Pieces(ps)
  {
    if ps != [] {
      var pieces := Pieces(ps);
      assert pieces[0].bytes[0..] == pieces[0].bytes && [pieces[0]] + pieces[1..] == pieces;
    }
  }

  lemma {:induction false} ConsumeAligned(ps: seq<Packet>, n: nat)
    requires !AnyTorn(Spread(ps, n))
    ensures !LogPanics(Consume(Pieces(ps), n))
    decreases |ps|
  {
    if ps != [] {
      var size, all := |Bytes(ps[0])|, Spread(ps, n);
      assert !Torn(all[0]);
      if n < size {
        ConsumeNothing(ps);
        PiecesDoNotPanic(ps);
      } else {
        var rest := Spread(ps[1..], n - size);
        forall i | 0 <= i < |rest|
          ensures !Torn(rest[i])
        {
          assert rest[i] == all[i + 1];
        }
        ConsumeAligned(ps[1..], n - size);
        ConsumeWhole(ps[0], Pieces(ps[1..]), n);
      }
    }
  }

  lemma {:induction false} PiecesDoNotPanic(ps: seq<Packet>)
    ensures !LogPanics(Pieces(ps))
  {
    if ps != [] {
      PiecesDoNotPanic(ps[1..]);
      assert Pieces(ps)[2..] == Pieces(ps[1..]);
    }
  }

  /** `n` bytes end inside packet `k`, after `o` of its bytes. */
  predicate CutAt(ps: seq<Packet>, n: nat, k: nat, o: nat) {
    k < |ps| && n == |AllBytes(ps[..k])| + o && 0 < o < |Bytes(ps[k])|
  }

  /** The size of the buffer behind what is left of a body after `used` bytes. */
  function Rest(p: Packet, used: nat): nat {
    if p.capacity > used then p.capacity - used else 0
  }

  /** A body whose buffer is too small to be taken for a header, with a packet behind it. */
  predicate SmallBodyFrom(ps: seq<Packet>, k: nat) {
    exists j :: k <= j < |ps| - 1 && ps[j].capacity < 8
  }

  /** A cut that makes the failure log read past a slice: inside a header; or inside a body that is not the
      last, when the rest of that body or a later body that is not the last is shorter than a header. */
  predicate FatalCut(ps: seq<Packet>, k: nat, o: nat)
    requires k < |ps| && 0 < o
  {
    o < 8 || (k + 1 < |ps| && (Rest(ps[k], o - 8) < 8 || SmallBodyFrom(ps, k + 1)))
  }

  ghost predicate FatallyCut(ps: seq<Packet>, n: nat) {
    exists k: nat, o: nat :: CutAt(ps, n, k, o) && FatalCut(ps, k, o)
  }

  /** Slices out of step: each body is paired with the header of the next packet. */
  function Shifted(first: Piece, ps: seq<Packet>): seq<Piece> {
    [first] + Pieces(ps)
  }

  lemma {:induction false} ShiftedPanics(first: Piece, ps: seq<Packet>)
    ensures LogPanics(Shifted(first, ps)) <==> ps != [] && (first.capacity < 8 || SmallBodyFrom(ps, 0))
    decreases |ps|
  {
    if ps != [] {
      var pieces, body := Shifted(first, ps), Piece(ps[0].body, ps[0].capacity);
      assert pieces[2..] == Shifted(body, ps[1..]);
      ShiftedPanics(body, ps[1..]);
      SmallBodyStep(ps);
    }
  }

  lemma SmallBodyStep(ps: seq<Packet>)
    requires ps != []
    ensures SmallBodyFrom(ps, 0) <==> |ps| > 1 && (ps[0].capacity < 8 || SmallBodyFrom(ps[1..], 0))
  {
    if j :| 0 <= j < |ps| - 1 && ps[j].capacity < 8 {
      if j > 0 { assert ps[1..][j - 1].capacity < 8; }
    }
    if j :| 0 <= j < |ps[1..]| - 1 && ps[1..][j].capacity < 8 {
      assert ps[j + 1].capacity < 8;
    }
  }

  /** A cut in the first packet. */
  lemma FirstCutPanics(ps: seq<Packet>, o: nat)
    requires ps != [] && 0 < o < |Bytes(ps[0])|
    ensures LogPanics(Consume(Pieces(ps), o)) <==> FatalCut(ps, 0, o)
  {
    var p, rest := ps[0], ps[1..];
    if o >= 8 {
      var pieces, left := Pieces(ps), Piece(p.body[o - 8..], Rest(p, o - 8));
      assert pieces[1..] == [Piece(p.body, p.capacity)] + Pieces(rest);
      assert Consume(pieces, o) == Consume(pieces[1..], o - 8);
      assert pieces[1..][1..] == Pieces(rest);
      assert Consume(pieces[1..], o - 8) == Shifted(left, rest);
      ShiftedPanics(left, rest);
      SmallBodyShift(ps, 1);
    }
  }

  lemma SmallBodyShift(ps: seq<Packet>, k: nat)
    requires ps != []
    ensures SmallBodyFrom(ps, k + 1) <==> SmallBodyFrom(ps[1..], k)
    ensures k == 1 ==> (SmallBodyFrom(ps, 1) <==> SmallBodyFrom(ps[1..], 0))
  {
    forall i: nat
      ensures SmallBodyFrom(ps, i + 1) <==> SmallBodyFrom(ps[1..], i)
    {
      if j :| i + 1 <= j < |ps| - 1 && ps[j].capacity < 8 { assert ps[1..][j - 1].capacity < 8; }
      if j :| i <= j < |ps[1..]| - 1 && ps[1..][j].capacity < 8 { assert ps[j + 1].capacity < 8; }
    }
    assert SmallBodyFrom(ps, 0 + 1) <==> SmallBodyFrom(ps[1..], 0);
  }

  /** Behind a whole packet the cuts are those of the packets after it. */
  lemma CutStep(ps: seq<Packet>, n: nat)
    requires ps != [] && n >= |Bytes(ps[0])|
    ensures FatallyCut(ps, n) <==> FatallyCut(ps[1..], n - |Bytes(ps[0])|)
  {
    var m, rest := n - |Bytes(ps[0])|, ps[1..];
    forall k: nat, o: nat
      ensures CutAt(ps, n, k + 1, o) <==> CutAt(rest, m, k, o)
      ensures k < |rest| && 0 < o ==> (FatalCut(ps, k + 1, o) <==> FatalCut(rest, k, o))
    {
      if k < |rest| {
        assert ps[..k + 1][1..] == rest[..k];
      }
      SmallBodyShift(ps, k + 1);
    }
    if k: nat, o: nat :| CutAt(ps, n, k, o) && FatalCut(ps, k, o) {
      assert k > 0 by { assert ps[..0] == []; }
      assert CutAt(ps, n, (k - 1) + 1, o) && CutAt(rest, m, k - 1, o) && FatalCut(rest, k - 1, o);
    }
    if k: nat, o: nat :| CutAt(rest, m, k, o) && FatalCut(rest, k, o) {
      assert CutAt(ps, n, k + 1, o) && FatalCut(ps, k + 1, o);
    }
  }

  lemma OnlyFirstCut(ps: seq<Packet>, n: nat)
    requires ps != [] && n < |Bytes(ps[0])|
    ensures FatallyCut(ps, n) <==> 0 < n && FatalCut(ps, 0, n)
  {
    assert ps[..0] == [];
    if 0 < n && FatalCut(ps, 0, n) { assert CutAt(ps, n, 0, n); }
    if k: nat, o: nat :| CutAt(ps, n, k, o) && FatalCut(ps, k, o) {
      if k > 0 { assert false; }
    }
  }

  /** The failure log panics exactly on a fatal cut, for any packets and any number of written bytes. */
  lemma {:induction false} LogPanicsExactly(ps: seq<Packet>, n: nat)
    ensures LogPanics(Consume(Pieces(ps), n)) <==> FatallyCut(ps, n)
    decreases |ps|
  {
    if ps != [] {
      var size := |Bytes(ps[0])|;
      if n >= size {
        ConsumeWhole(ps[0], Pieces(ps[1..]), n);
        LogPanicsExactly(ps[1..], n - size);
        CutStep(ps, n);
      } else {
        OnlyFirstCut(ps, n);
        if n == 0 {
          ConsumeNothing(ps);
          PiecesDoNotPanic(ps);
        } else {
          FirstCutPanics(ps, n);
        }
      }
    }
  }

  /** The call is past the deadline, the write fails, and what got through ends in a fatal cut. */
  ghost predicate FatalCall(env: Script, l: Line, ps: seq<Packet>) {
    Attempted(env, l) && !env(l.sends).ok && FatallyCut(ps, Through(env, l, ps))
  }

  lemma CallPanicsExactly(env: Script, l: Line, ps: seq<Packet>)
    ensures Panics(ps, Send(env, l, ps), Attempted(env, l)) <==> FatalCall(env, l, ps)
  {
    LogPanicsExactly(ps, Through(env, l, ps));
  }

  /** So the failure log ends the loop only if a packet was torn. */
  lemma PanicMeansTorn(env: Script, l: Line, ps: seq<Packet>)
    requires Panics(ps, Send(env, l, ps), Attempted(env, l))
    ensures AnyTorn(Send(env, l, ps).l.log)
  {
    var n := Through(env, l, ps);
    if !AnyTorn(Spread(ps, n)) { ConsumeAligned(ps, n); }
    var i :| 0 <= i < |Spread(ps, n)| && Torn(Spread(ps, n)[i]);
    var log := Send(env, l, ps).l.log;
    assert log == l.log + Spread(ps, n);
    assert Torn(log[|l.log| + i]);
  }

  /** And always if the cut is inside a header, be it the first or a later one. */
  lemma TornHeaderPanics(ps: seq<Packet>, n: nat, k: nat, o: nat)
    requires CutAt(ps, n, k, o) && o < 8
    ensures LogPanics(Consume(Pieces(ps), n))
  {
    assert FatalCut(ps, k, o);
    LogPanicsExactly(ps, n);
  }

  /** Some call of the packet-by-packet loop is fatal. */
  ghost predicate FatalEach(env: Script, l: Line, ps: seq<Packet>)
    decreases |ps|
  {
    ps != [] && (FatalCall(env, l, [ps[0]]) || FatalEach(env, Send(env, l, [ps[0]]).l, ps[1..]))
  }

  ghost predicate FatalBatch(env: Script, limit: nat, l: Line, ps: seq<Packet>) {
    if Size(ps) < limit then FatalCall(env, l, ps) else FatalEach(env, l, ps)
  }

  lemma {:induction false} EachEndsExactly(env: Script, l: Line, ps: seq<Packet>)
    ensures !SendOneByOne(env, l, ps).1 <==> FatalEach(env, l, ps)
    decreases |ps|
  {
    if ps != [] {
      CallPanicsExactly(env, l, [ps[0]]);
      EachEndsExactly(env, Send(env, l, [ps[0]]).l, ps[1..]);
    }
  }

  /** No batch so far had a fatal call. */
  ghost predicate NoFatalBatch(env: Script, limit: nat, batches: seq<seq<Packet>>) {
    batches == [] ||
      (NoFatalBatch(env, limit, batches[..|batches| - 1])
       && !FatalBatch(env, limit, After(env, limit, batches[..|batches| - 1]).l, batches[|batches| - 1]))
  }

  lemma {:induction false} RunningExactly(env: Script, limit: nat, batches: seq<seq<Packet>>)
    ensures After(env, limit, batches).Running? <==> NoFatalBatch(env, limit, batches)
  {
    if batches != [] {
      var before, ps := batches[..|batches| - 1], batches[|batches| - 1];
      RunningExactly(env, limit, before);
      CallPanicsExactly(env, After(env, limit, before).l, ps);
      EachEndsExactly(env, After(env, limit, before).l, ps);
    }
  }

  lemma {:induction false} EndedLoses(env: Script, limit: nat, batches: seq<seq<Packet>>)
    requires forall i :: 0 <= i < |batches| ==> batches[i] != []
    ensures After(env, limit, batches).Ended? ==> |After(env, limit, batches).returned| < |Concat(batches)|
    ensures After(env, limit, batches).Running? ==> After(env, limit, batches).returned == Concat(batches)
  {
    if batches != [] { EndedLoses(env, limit, batches[..|batches| - 1]); }
  }

  /** Every dequeued packet has been returned, once and in order, exactly when no call was fatal; otherwise the
      packets of the fatal batch, and all after it, never are. */
  lemma ReturnedOnceExactly(env: Script, limit: nat, batches: seq<seq<Packet>>)
    requires forall i :: 0 <= i < |batches| ==> batches[i] != []
    ensures After(env, limit, batches).returned == Concat(batches) <==> NoFatalBatch(env, limit, batches)
  {
    RunningExactly(env, limit, batches);
    EndedLoses(env, limit, batches);
  }

  // ---- no failures ----

  // ---- one call without other closers ----

  /** What one call does to the wire and the socket when nobody else closes the connection meanwhile: all packets in
      order, or nothing; a failed write leaves the bytes that got through, and closes the connection exactly when
      there were any or the deadline could not be set. */
  lemma CallAlone(env: Script, l: Line, ps: seq<Packet>)
    requires Alone(env(l.sends)) && !l.lock && !l.shut
    ensures var w, s := env(l.sends), Send(env, l, ps);
            && s.l.sends == l.sends + 1 && s.l.foreign == l.foreign && s.l.lock == s.l.shut
            && (!w.deadline ==> !s.ok && s.l.wire == l.wire && s.l.shut)
            && (w.deadline && w.ok ==> s.ok && s.l.wire == l.wire + AllBytes(ps) && !s.l.shut)
            && (w.deadline && !w.ok && s.through == 0 ==> !s.ok && s.l.wire == l.wire && !s.l.shut)
            && (w.deadline && !w.ok && s.through > 0 ==>
                  && !s.ok && s.through <= |AllBytes(ps)| && s.l.shut
                  && s.l.wire == l.wire + AllBytes(ps)[..s.through])
  {
    assert AllBytes(ps)[..|AllBytes(ps)|] == AllBytes(ps) && l.wire + [] == l.wire;
    assert AllBytes(ps)[..0] == [];
  }

  predicate Alone(w: Weather) {
    !w.before.lock && !w.before.shut && !w.after.lock && !w.after.shut
  }

  /** On a closed socket nothing is written. */
  lemma ClosedStaysSilent(env: Script, l: Line, ps: seq<Packet>)
    requires l.shut && l.lock
    ensures var s := Send(env, l, ps); !s.ok && s.l.wire == l.wire && s.l.shut && s.l.lock
  {
  }

  lemma {:induction false} SizeIsBytes(ps: seq<Packet>)
    ensures Size(ps) == |AllBytes(ps)|
  {
    if ps != [] {
      var n := |ps| - 1;
      SizeIsBytes(ps[..n]);
      assert ps == ps[..n] + [ps[n]] && [ps[n]][1..] == [];
      AllBytesJoined(ps[..n], [ps[n]]);
      assert AllBytes([ps[n]]) == Bytes(ps[n]) + AllBytes([]);
    }
  }

  lemma SendCounts(env: Script, l: Line, ps: seq<Packet>)
    ensures Send(env, l, ps).l.sends == l.sends + 1
  {
  }

  lemma {:induction false} OneByOneCounts(env: Script, l: Line, ps: seq<Packet>)
    ensures SendOneByOne(env, l, ps).1 ==> SendOneByOne(env, l, ps).0.sends == l.sends + |ps|
    decreases |ps|
  {
    if ps != [] {
      SendCounts(env, l, [ps[0]]);
      OneByOneCounts(env, Send(env, l, [ps[0]]).l, ps[1..]);
    }
  }

  /** A batch below the limit goes out in one write, and any other in one write for each packet. */
  lemma WritesOfABatch(env: Script, limit: nat, l: Line, ps: seq<Packet>)
    requires SendBatch(env, limit, l, ps).1
    ensures SendBatch(env, limit, l, ps).0.sends == l.sends + if |AllBytes(ps)| < limit then 1 else |ps|
  {
    SizeIsBytes(ps);
    if Size(ps) < limit {
      SendCounts(env, l, ps);
    } else {
      OneByOneCounts(env, l, ps);
    }
  }

  ghost predicate Calm(env: Script) {
    forall n :: env(n) == Weather(Closing(false, false), true, true, env(n).through, Closing(false, false))
  }

  predicate Untouched(l: Line) {
    !l.lock && !l.foreign && !l.shut
  }

  lemma CalmSend(env: Script, l: Line, ps: seq<Packet>)
    requires Calm(env) && Untouched(l)
    ensures var s := Send(env, l, ps); s.ok && Untouched(s.l) && s.l.wire == l.wire + AllBytes(ps)
  {
    assert env(l.sends).ok && !env(l.sends).before.lock && !env(l.sends).after.lock;
    assert AllBytes(ps)[..|AllBytes(ps)|] == AllBytes(ps);
  }

  lemma CalmOne(env: Script, l: Line, p: Packet)
    requires Calm(env) && Untouched(l)
    ensures var s := Send(env, l, [p]);
            !Panics([p], s, Attempted(env, l)) && Untouched(s.l) && s.l.wire == l.wire + Bytes(p)
  {
    CalmSend(env, l, [p]);
    assert AllBytes([p]) == Bytes(p);
  }

  lemma CalmStep(env: Script, l: Line, ps: seq<Packet>)
    requires Calm(env) && Untouched(l) && ps != []
    ensures var v := Send(env, l, [ps[0]]).l;
            && Untouched(v) && v.wire + AllBytes(ps[1..]) == l.wire + AllBytes(ps)
            && SendOneByOne(env, l, ps) == SendOneByOne(env, v, ps[1..])
  {
    CalmOne(env, l, ps[0]);
    assert l.wire + Bytes(ps[0]) + AllBytes(ps[1..]) == l.wire + AllBytes(ps);
  }

  lemma {:induction false} CalmEach(env: Script, l: Line, ps: seq<Packet>)
    requires Calm(env) && Untouched(l)
    ensures var (v, alive) := SendOneByOne(env, l, ps); alive && Untouched(v) && v.wire == l.wire + AllBytes(ps)
    decreases |ps|
  {
    if ps == [] {
      assert l.wire + [] == l.wire;
    } else {
      CalmStep(env, l, ps);
      CalmEach(env, Send(env, l, [ps[0]]).l, ps[1..]);
    }
  }

  /** Without failures the wire is all packets, whichever batches go out as one write and whichever packet by packet. */
  lemma {:induction false} BatchesOrSinglesAreTheSame(env: Script, limit: nat, batches: seq<seq<Packet>>)
    requires Calm(env)
    ensures var s := After(env, limit, batches);
            s.Running? && Untouched(s.l) && s.l.wire == AllBytes(Concat(batches)) && s.returned == Concat(batches)
  {
    if batches != [] {
      var before, ps := batches[..|batches| - 1], batches[|batches| - 1];
      BatchesOrSinglesAreTheSame(env, limit, before);
      var s := After(env, limit, before);
      CalmSend(env, s.l, ps);
      CalmEach(env, s.l, ps);
      AllBytesJoined(Concat(before), ps);
    }
  }

  // ---- what the other side reads ----

  /** The packets of which every byte was written. */
  function Whole(log: seq<Fate>): seq<Packet> {
    if log == [] then []
    else (if log[0].written < |Bytes(log[0].packet)| then [] else [log[0].packet]) + Whole(log[1..])
  }

  lemma {:induction false} SilentParts(log: seq<Fate>)
    requires Silent(log)
    ensures Parts(log) == [] && Whole(log) == []
  {
    if log != [] { SilentParts(log[1..]); }
  }

  /** The length-prefix reader recovers exactly the packets that were written whole. */
  lemma {:induction false} ReaderSeesWholePackets(r: Receiver, log: seq<Fate>)
    requires Aligned(log) && forall i :: 0 <= i < |log| ==> Accepted(r, log[i].packet)
    ensures Read(r, Parts(log)) == Reading(Carried(r, Whole(log)), StreamEnded)
    decreases |log|
  {
    if log != [] {
      var p, w := log[0].packet, log[0].written;
      if w >= |Bytes(p)| {
        ReaderSeesWholePackets(r, log[1..]);
        ReadOne(r, p, Parts(log[1..]));
        assert ([p] + Whole(log[1..]))[1..] == Whole(log[1..]);
      } else if w == 0 {
        ReaderSeesWholePackets(r, log[1..]);
        assert Parts(log) == Parts(log[1..]) && Whole(log) == Whole(log[1..]);
      } else {
        assert Torn(log[0]);
        SilentParts(log[1..]);
        CutPacket(r, p, w);
        assert Parts(log) == Bytes(p)[..w] && Whole(log) == [];
      }
    }
  }
}
