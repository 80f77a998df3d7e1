/** The outgoing side of a worker connection: what its bytes on the wire are, whatever the transport and the
    other goroutines that close the connection do. */
module WorkerLine {
  import opened Octets
  import opened PacketStream

  /** Another goroutine in `Close`: it takes the lock, and some time later closes the socket. */
  datatype Closing = Closing(lock: bool, shut: bool)

  /** What happens around one call of `send`: whether the deadline can be set; whether the write succeeds and,
      when it does not, how many bytes got through. */
  datatype Weather = Weather(before: Closing, deadline: bool, ok: bool, through: nat, after: Closing)

  type Script = nat -> Weather

  /** A dequeued packet and how many of its bytes were written. */
  datatype Fate = Fate(packet: Packet, written: nat)

  /** `foreign`: another goroutine holds the close lock. */
  datatype Line = Line(wire: seq<Byte>, log: seq<Fate>, lock: bool, foreign: bool, shut: bool, sends: nat)

  const NEW: Line := Line([], [], false, false, false, 0)

  function Meddle(l: Line, c: Closing): Line {
    var m := if c.lock && !l.lock then l.(lock := true, foreign := true) else l;
    if c.shut && m.foreign then m.(shut := true) else m
  }

  /** `Close`: only the goroutine that takes the lock closes the socket. */
  function CloseLine(l: Line): Line {
    if l.lock then l else l.(lock := true, shut := true)
  }

  // ---- one call of `send` ----

  /** How `n` written bytes spread over the packets of one call. */
  function Spread(ps: seq<Packet>, n: nat): seq<Fate> {
    if ps == [] then []
    else
      var w := if n < |Bytes(ps[0])| then n else |Bytes(ps[0])|;
      [Fate(ps[0], w)] + Spread(ps[1..], n - w)
  }

  datatype Sent = Sent(l: Line, ok: bool, through: nat)

  /** The line when a call begins to write. */
  function Ready(env: Script, l: Line): Line {
    Meddle(l.(sends := l.sends + 1), env(l.sends).before)
  }

  /** Whether the call comes past setting the deadline; on a closed socket it does not. */
  predicate Attempted(env: Script, l: Line) {
    env(l.sends).deadline && !Ready(env, l).shut
  }

  function Through(env: Script, l: Line, ps: seq<Packet>): (n: nat)
    ensures n <= |AllBytes(ps)|
  {
    var all, weather := |AllBytes(ps)|, env(l.sends);
    if weather.ok || weather.through > all then all else weather.through
  }

  /** The line when the write has returned and nothing has been done about a failure. */
  function Written(env: Script, l: Line, ps: seq<Packet>): Line {
    var m, n := Ready(env, l), Through(env, l, ps);
    Meddle(m.(wire := m.wire + AllBytes(ps)[..n], log := m.log + Spread(ps, n)), env(l.sends).after)
  }

  function Send(env: Script, l: Line, ps: seq<Packet>): Sent {
    var m, n := Ready(env, l), Through(env, l, ps);
    if !Attempted(env, l) then Sent(CloseLine(m.(log := m.log + Spread(ps, 0))), false, 0)
    else if env(l.sends).ok then Sent(Written(env, l, ps), true, n)
    else Sent(if n != 0 then CloseLine(Written(env, l, ps)) else Written(env, l, ps), false, n)
  }

  // ---- the log that follows a failed call ----

  datatype Piece = Piece(bytes: seq<Byte>, capacity: nat)

  function Pieces(ps: seq<Packet>): seq<Piece> {
    if ps == [] then [] else [Piece(Header(ps[0]), 8), Piece(ps[0].body, ps[0].capacity)] + Pieces(ps[1..])
  }

  /** `net.Buffers` drops what was written: whole slices, and the front of one. */
  function Consume(pieces: seq<Piece>, n: nat): seq<Piece> {
    if pieces == [] then []
    else if |pieces[0].bytes| > n then
      [Piece(pieces[0].bytes[n..], if pieces[0].capacity > n then pieces[0].capacity - n else 0)] + pieces[1..]
    else Consume(pieces[1..], n - |pieces[0].bytes|)
  }

  /** The failure log takes the remaining slices in pairs and reads bytes 4 to 8 of the first of each pair. */
  predicate LogPanics(pieces: seq<Piece>) {
    |pieces| >= 2 && (pieces[0].capacity < 8 || LogPanics(pieces[2..]))
  }

  predicate Panics(ps: seq<Packet>, s: Sent, deadline: bool) {
    deadline && !s.ok && LogPanics(Consume(Pieces(ps), s.through))
  }

  // ---- one batch ----

  function Size(ps: seq<Packet>): nat {
    if ps == [] then 0 else Size(ps[..|ps| - 1]) + 8 + |ps[|ps| - 1].body|
  }

  /** The sender after a batch; after a panic in the log its goroutine has ended. */
  datatype Sender = Running(l: Line, returned: seq<Packet>) | Ended(l: Line, returned: seq<Packet>)

  function SendOneByOne(env: Script, l: Line, ps: seq<Packet>): (Line, bool)
    decreases |ps|
  {
    if ps == [] then (l, true)
    else
      var s := Send(env, l, [ps[0]]);
      if Panics([ps[0]], s, Attempted(env, l)) then (s.l, false) else SendOneByOne(env, s.l, ps[1..])
  }

  function SendBatch(env: Script, limit: nat, l: Line, ps: seq<Packet>): (Line, bool) {
    if Size(ps) < limit then
      var s := Send(env, l, ps);
      (s.l, !Panics(ps, s, Attempted(env, l)))
    else SendOneByOne(env, l, ps)
  }

  function Batch(env: Script, limit: nat, s: Sender, ps: seq<Packet>): Sender {
    if s.Ended? then s
    else
      var (l, alive) := SendBatch(env, limit, s.l, ps);
      if alive then Running(l, s.returned + ps) else Ended(l, s.returned)
  }

  /** Any further batches. */
  function Continue(env: Script, limit: nat, s: Sender, batches: seq<seq<Packet>>): Sender {
    if batches == [] then s
    else Batch(env, limit, Continue(env, limit, s, batches[..|batches| - 1]), batches[|batches| - 1])
  }

  function After(env: Script, limit: nat, batches: seq<seq<Packet>>): Sender {
    Continue(env, limit, Running(NEW, []), batches)
  }
}
