/** The send loop of a worker connection as it runs: it collects header and body slices of a batch in one
    buffer, writes them at once or packet by packet, clears the buffer and gives the packets back. */
module WorkerConn {
  import opened Options
  import opened Octets
  import opened PacketStream
  import opened WorkerLine

  /** The bytes of a list of slices. */
  function Joined(pieces: seq<Piece>): seq<Byte> {
    if pieces == [] then [] else pieces[0].bytes + Joined(pieces[1..])
  }

  lemma JoinedTwo(a: Piece, b: Piece, rest: seq<Piece>)
    ensures Joined([a, b] + rest) == a.bytes + b.bytes + Joined(rest)
  {
    assert ([a, b] + rest)[1..] == [b] + rest && ([b] + rest)[1..] == rest;
  }

  lemma {:induction false} PiecesJoined(ps: seq<Packet>)
    ensures Joined(Pieces(ps)) == AllBytes(ps) && |Pieces(ps)| == 2 * |ps|
  {
    if ps != [] {
      PiecesJoined(ps[1..]);
      JoinedTwo(Piece(Header(ps[0]), 8), Piece(ps[0].body, ps[0].capacity), Pieces(ps[1..]));
    }
  }

  lemma {:induction false} PiecesAt(ps: seq<Packet>, k: nat)
    requires k < |ps|
    ensures |Pieces(ps)| == 2 * |ps|
    ensures Pieces(ps)[2 * k] == Piece(Header(ps[k]), 8) && Pieces(ps)[2 * k + 1] == Piece(ps[k].body, ps[k].capacity)
  {
    PiecesJoined(ps);
    if k > 0 { PiecesAt(ps[1..], k - 1); PiecesJoined(ps[1..]); }
  }

  class Conn {
    const env: Script
    const limit: nat
    /** What the other end of the socket has received. */
    var wire: seq<Byte>
    var closeLock: bool
    var foreign: bool
    var shut: bool
    var sends: nat
    var packets: array<Option<Packet>>
    var bulkBuffer: array<Option<Piece>>
    /** Packets given back to the object pool, in order. */
    var returned: seq<Packet>
    ghost var log: seq<Fate>

    ghost predicate Valid()
      reads this
    {
      bulkBuffer.Length == 2 * packets.Length
    }

    ghost function Now(): Line
      reads this
    {
      Line(wire, log, closeLock, foreign, shut, sends)
    }

    constructor (env: Script, limit: nat, dequeueSize: nat)
      ensures Valid() && Now() == NEW && returned == [] && packets.Length == dequeueSize
      ensures this.env == env && this.limit == limit && fresh(packets) && fresh(bulkBuffer)
    {
      this.env, this.limit := env, limit;
      wire, closeLock, foreign, shut, sends, returned, log := [], false, false, false, 0, [], [];
      packets := new Option<Packet>[dequeueSize](_ => None);
      bulkBuffer := new Option<Piece>[2 * dequeueSize](_ => None);
    }

    method Close()
      modifies this`closeLock, this`shut
      ensures Now() == CloseLine(old(Now()))
    {
      if closeLock { return; }
      closeLock, shut := true, true;
    }

    /** Other goroutines closing the connection meanwhile. */
    method Others(c: Closing)
      modifies this`closeLock, this`foreign, this`shut
      ensures Now() == Meddle(old(Now()), c)
    {
      if c.lock && !closeLock { closeLock, foreign := true, true; }
      if c.shut && foreign { shut := true; }
    }

    /** `formatSendToBusinessData` over the rest of the slices, in pairs; true when it reads past a slice. */
    method LogFailure(buffers: seq<Piece>) returns (panicked: bool)
      ensures panicked == LogPanics(buffers)
    {
      var i := 0;
      while i + 1 < |buffers|
        invariant 0 <= i <= |buffers|
        invariant LogPanics(buffers) == LogPanics(buffers[i..])
        decreases |buffers| - i
      {
        if buffers[i].capacity < 8 { return true; }
        assert buffers[i..][2..] == buffers[i + 2..];
        i := i + 2;
      }
      return false;
    }

    /** Up to the write: the deadline is set unless the socket is closed. */
    method Begin() returns (attempted: bool)
      modifies this`closeLock, this`foreign, this`shut, this`sends
      ensures Now() == Ready(env, old(Now())) && attempted == Attempted(env, old(Now()))
    {
      var weather := env(sends);
      sends := sends + 1;
      Others(weather.before);
      attempted := weather.deadline && !shut;
    }

    /** The write itself. */
    method WriteTo(weather: Weather, buffers: seq<Piece>, ghost ps: seq<Packet>) returns (n: nat)
      requires buffers == Pieces(ps)
      modifies this`wire, this`closeLock, this`foreign, this`shut, this`log
      ensures n == if weather.ok || weather.through > |AllBytes(ps)| then |AllBytes(ps)| else weather.through
      ensures Now() == Meddle(old(Now()).(wire := old(wire) + AllBytes(ps)[..n], log := old(log) + Spread(ps, n)),
          weather.after)
    {
      PiecesJoined(ps);
      var all := Joined(buffers);
      n := if weather.ok || weather.through > |all| then |all| else weather.through;
      wire, log := wire + all[..n], log + Spread(ps, n);
      Others(weather.after);
    }

    /** `send`; `ps` are the packets whose slices are sent. */
    method Send(buffers: seq<Piece>, ghost ps: seq<Packet>) returns (ok: bool, panicked: bool)
      requires buffers == Pieces(ps)
      modifies this`wire, this`closeLock, this`foreign, this`shut, this`sends, this`log
      ensures Now() == WorkerLine.Send(env, old(Now()), ps).l && ok == WorkerLine.Send(env, old(Now()), ps).ok
      ensures panicked == Panics(ps, WorkerLine.Send(env, old(Now()), ps), Attempted(env, old(Now())))
    {
      var weather := env(sends);
      var attempted := Begin();
      if !attempted {
        log := log + Spread(ps, 0);
        Close();
        return false, false;
      }
      var n := WriteTo(weather, buffers, ps);
      if weather.ok { return true, false; }
      if n != 0 { Close(); }
      panicked := LogFailure(Consume(buffers, n));
      return false, panicked;
    }

    /** The packets that the last `Dequeue` put into the array. */
    ghost predicate Dequeued(ps: seq<Packet>)
      reads this, packets
    {
      |ps| <= packets.Length && forall i :: 0 <= i < |ps| ==> packets[i] == Some(ps[i])
    }

    /** The first `n` slices in the buffer are those of the packets. */
    ghost predicate Filled(ps: seq<Packet>, n: nat)
      reads this, bulkBuffer
    {
      && 2 * |ps| <= bulkBuffer.Length && |Pieces(ps)| == 2 * |ps| && n <= 2 * |ps|
      && forall i :: 0 <= i < n ==> bulkBuffer[i] == Some(Pieces(ps)[i])
    }

    lemma SizeStep(ps: seq<Packet>, i: nat)
      requires i < |ps|
      ensures Size(ps[..i + 1]) == Size(ps[..i]) + 8 + |ps[i].body|
    {
      assert ps[..i + 1][..i] == ps[..i];
    }

    method FillOne(length: nat, pkg: Packet, ghost ps: seq<Packet>, ghost i: nat)
      requires Filled(ps, length) && length == 2 * i && i < |ps| && ps[i] == pkg
      modifies bulkBuffer
      ensures Filled(ps, length + 2)
    {
      PiecesAt(ps, i);
      bulkBuffer[length] := Some(Piece(Header(pkg), 8));
      bulkBuffer[length + 1] := Some(Piece(pkg.body, pkg.capacity));
    }

    method Fill(count: nat, ghost ps: seq<Packet>) returns (size: nat, length: nat)
      requires Valid() && Dequeued(ps) && count == |ps|
      modifies bulkBuffer
      ensures Filled(ps, length) && length == 2 * count && size == Size(ps) && Dequeued(ps)
    {
      size, length := count * 8, 0;
      PiecesJoined(ps);
      for i := 0 to count
        invariant size == Size(ps[..i]) + (count - i) * 8 && length == 2 * i
        invariant Filled(ps, length) && Dequeued(ps)
      {
        var pkg := packets[i].value;
        SizeStep(ps, i);
        size := size + |pkg.body|;
        FillOne(length, pkg, ps, i);
        length := length + 2;
      }
      assert ps[..count] == ps;
    }

    /** The slices of the packets from `i` to `j`. */
    method Slice(i: nat, j: nat, ghost ps: seq<Packet>) returns (buffers: seq<Piece>)
      requires Valid() && i <= j <= |ps| && Filled(ps, 2 * |ps|)
      ensures buffers == Pieces(ps[i..j])
    {
      buffers := [];
      assert ps[i..i] == [];
      for k := i to j
        invariant buffers == Pieces(ps[i..k])
      {
        PiecesAt(ps, k);
        AppendPieces(ps[i..k], ps[k]);
        assert ps[i..k + 1] == ps[i..k] + [ps[k]];
        buffers := buffers + [bulkBuffer[2 * k].value, bulkBuffer[2 * k + 1].value];
      }
    }

    method SendSingle(i: nat, ghost ps: seq<Packet>, ghost k: nat) returns (panicked: bool)
      requires Valid() && Filled(ps, 2 * |ps|) && i == 2 * k && k < |ps|
      modifies this`wire, this`closeLock, this`foreign, this`shut, this`sends, this`log
      ensures SendOneByOne(env, old(Now()), ps[k..]) == if panicked then (Now(), false)
          else SendOneByOne(env, Now(), ps[k + 1..])
    {
      var buffers := Slice(i / 2, i / 2 + 1, ps);
      assert ps[k..k + 1] == [ps[k]] && ps[k..][0] == ps[k] && ps[k..][1..] == ps[k + 1..];
      var ok;
      ok, panicked := Send(buffers, [ps[k]]);
    }

    /** The loop that writes packet by packet. */
    method SendSingles(length: nat, ghost ps: seq<Packet>) returns (alive: bool)
      requires Valid() && Filled(ps, 2 * |ps|) && length == 2 * |ps|
      modifies this`wire, this`closeLock, this`foreign, this`shut, this`sends, this`log
      ensures (Now(), alive) == SendOneByOne(env, old(Now()), ps)
    {
      var i := 0;
      ghost var k := 0;
      assert ps[0..] == ps;
      while i < length
        invariant i == 2 * k && k <= |ps|
        invariant SendOneByOne(env, old(Now()), ps) == SendOneByOne(env, Now(), ps[k..])
      {
        var panicked := SendSingle(i, ps, k);
        if panicked { return false; }
        i, k := i + 2, k + 1;
      }
      assert ps[k..] == [];
      return true;
    }

    /** The writes of one batch. */
    method SendAll(size: nat, length: nat, ghost ps: seq<Packet>) returns (alive: bool)
      requires Valid() && Filled(ps, 2 * |ps|) && length == 2 * |ps| && size == Size(ps)
      modifies this`wire, this`closeLock, this`foreign, this`shut, this`sends, this`log
      ensures (Now(), alive) == SendBatch(env, limit, old(Now()), ps)
    {
      if size < limit {
        var buffers := Slice(0, length / 2, ps);
        assert ps[0..|ps|] == ps;
        var ok, panicked := Send(buffers, ps);
        alive := !panicked;
      } else {
        alive := SendSingles(length, ps);
      }
    }

    /** Clears the buffer and gives every packet of the batch back, once and in order. */
    method Release(count: nat, length: nat, ghost ps: seq<Packet>)
      requires Valid() && Dequeued(ps) && count == |ps| && length == 2 * count
      modifies this`returned, packets, bulkBuffer
      ensures returned == old(returned) + ps
      ensures forall i :: 0 <= i < count ==> packets[i].None?
      ensures forall i :: 0 <= i < length ==> bulkBuffer[i].None?
    {
      for i := count to length
        invariant forall j :: count <= j < i ==> bulkBuffer[j].None?
        invariant Dequeued(ps) && returned == old(returned)
      {
        bulkBuffer[i] := None;
      }
      for i := 0 to count
        invariant forall j :: count <= j < length ==> bulkBuffer[j].None?
        invariant forall j :: 0 <= j < i ==> bulkBuffer[j].None? && packets[j].None?
        invariant forall j :: i <= j < count ==> packets[j] == Some(ps[j])
        invariant returned == old(returned) + ps[..i]
      {
        bulkBuffer[i] := None;
        returned := returned + [packets[i].value];
        packets[i] := None;
        assert ps[..i + 1] == ps[..i] + [ps[i]];
      }
      assert ps[..count] == ps;
    }

    /** One turn of the loop, after `Dequeue` has filled the array. */
    method Turn(count: nat, ghost ps: seq<Packet>) returns (alive: bool)
      requires Valid() && Dequeued(ps) && count == |ps|
      modifies this`wire, this`closeLock, this`foreign, this`shut, this`sends, this`log, this`returned, packets,
          bulkBuffer
      ensures Valid()
      ensures (if alive then Running(Now(), returned) else Ended(Now(), returned)) ==
                Batch(env, limit, Running(old(Now()), old(returned)), ps)
    {
      var size, length := Fill(count, ps);
      alive := SendAll(size, length, ps);
      if alive { Release(count, length, ps); }
    }
  }

  lemma {:induction false} AppendPieces(ps: seq<Packet>, p: Packet)
    ensures Pieces(ps + [p]) == Pieces(ps) + [Piece(Header(p), 8), Piece(p.body, p.capacity)]
  {
    if ps == [] {
      assert [] + [p] == [p] && [p][1..] == [];
    } else {
      assert (ps + [p])[1..] == ps[1..] + [p];
      AppendPieces(ps[1..], p);
    }
  }
}
