/** Packets on a stream: a four-byte length of command and body, the command, the body. */
module PacketStream {
  import opened Octets

  const TWO_32: nat := 0x1_0000_0000

  /** `capacity` is the size of the buffer that holds the body. */
  datatype Packet = Packet(cmd: nat, body: seq<Byte>, capacity: nat)

  predicate WellFormed(p: Packet) {
    p.cmd < TWO_32 && |p.body| + 4 < TWO_32 && |p.body| <= p.capacity
  }

  /** `packet.set`: the length field is 32 bits wide. */
  function Header(p: Packet): (h: seq<Byte>)
    ensures |h| == 8
  {
    ToBigEndian((|p.body| + 4) % TWO_32, 4) + ToBigEndian(p.cmd % TWO_32, 4)
  }

  function Bytes(p: Packet): (b: seq<Byte>)
    ensures |b| == 8 + |p.body|
  {
    Header(p) + p.body
  }

  function AllBytes(ps: seq<Packet>): seq<Byte> {
    if ps == [] then [] else Bytes(ps[0]) + AllBytes(ps[1..])
  }

  lemma {:induction false} AllBytesJoined(a: seq<Packet>, b: seq<Packet>)
    ensures AllBytes(a + b) == AllBytes(a) + AllBytes(b)
  {
    if a == [] {
      assert a + b == b;
    } else {
      assert (a + b)[1..] == a[1..] + b;
      AllBytesJoined(a[1..], b);
    }
  }

  // ---- reading ----

  datatype Command = Command(cmd: nat, param: seq<Byte>)

  /** Why the loop ends: the stream does, or what it carries is not acceptable. */
  datatype End = StreamEnded | TooLarge | NoCommand | UnknownCommand

  datatype Reading = Reading(commands: seq<Command>, end: End)

  /** What the receiving side accepts. */
  datatype Receiver = Receiver(limit: nat, heartbeat: seq<Byte>, known: nat -> bool)

  function Read(r: Receiver, stream: seq<Byte>): Reading
    decreases |stream|
  {
    if |stream| < 4 then Reading([], StreamEnded)
    else
      var length := BigEndian(stream[..4]);
      if length > r.limit then Reading([], TooLarge)
      else if |stream| < 4 + length then Reading([], StreamEnded)
      else
        var data, rest := stream[4..4 + length], stream[4 + length..];
        if data == r.heartbeat then Read(r, rest)
        else if length < 4 then Reading([], NoCommand)
        else
          var cmd := BigEndian(data[..4]);
          if !r.known(cmd) then Reading([], UnknownCommand)
          else
            var more := Read(r, rest);
            Reading([Command(cmd, data[4..])] + more.commands, more.end)
  }

  /** `process`: the loop over the stream, one packet a turn. */
  method Process(r: Receiver, stream: seq<Byte>) returns (commands: seq<Command>, end: End)
    ensures Reading(commands, end) == Read(r, stream)
  {
    commands := [];
    var at := 0;
    assert stream[0..] == stream;
    BeforeTwice([], [], Read(r, stream));
    while true
      invariant 0 <= at <= |stream|
      invariant Read(r, stream) == Before(commands, Read(r, stream[at..]))
      decreases |stream| - at
    {
      ghost var rest := stream[at..];
      if |stream| - at < 4 { return commands, StreamEnded; }
      assert stream[at..at + 4] == rest[..4];
      var length := BigEndian(stream[at..at + 4]);
      if length > r.limit { return commands, TooLarge; }
      if |stream| - at - 4 < length { return commands, StreamEnded; }
      var data := stream[at + 4..at + 4 + length];
      assert data == rest[4..4 + length] && rest[4 + length..] == stream[at + 4 + length..];
      at := at + 4 + length;
      ghost var more := Read(r, stream[at..]);
      if data != r.heartbeat {
        if |data| < 4 { return commands, NoCommand; }
        var cmd := BigEndian(data[..4]);
        if !r.known(cmd) { return commands, UnknownCommand; }
        BeforeTwice(commands, [Command(cmd, data[4..])], more);
        commands := commands + [Command(cmd, data[4..])];
      }
    }
  }

  // ---- what is written is what is read ----

  predicate Accepted(r: Receiver, p: Packet) {
    WellFormed(p) && |p.body| + 4 <= r.limit && r.known(p.cmd)
  }

  predicate IsHeartbeat(r: Receiver, p: Packet) {
    ToBigEndian(p.cmd, 4) + p.body == r.heartbeat
  }

  /** The commands that the packets carry; a packet that looks like a heartbeat carries none. */
  function Carried(r: Receiver, ps: seq<Packet>): seq<Command> {
    if ps == [] then []
    else CarriedOne(r, ps[0]) + Carried(r, ps[1..])
  }

  lemma FourBytes(n: nat)
    requires n < TWO_32
    ensures BigEndian(ToBigEndian(n, 4)) == n
  {
    assert Capacity(0) == 1 && Capacity(1) == 256 && Capacity(2) == 65536 && Capacity(3) == 0x100_0000;
    assert Capacity(4) == TWO_32;
    BigEndianRoundTrip(n, 4);
  }

  lemma Slices(a: seq<Byte>, b: seq<Byte>, c: seq<Byte>, rest: seq<Byte>)
    requires |a| == 4 && |b| == 4
    ensures var s := (a + b) + c + rest;
            s[..4] == a && s[4..8 + |c|] == b + c && s[8 + |c|..] == rest
  {
  }

  lemma HeaderSays(p: Packet, rest: seq<Byte>)
    requires WellFormed(p)
    ensures var s := Bytes(p) + rest;
            && BigEndian(s[..4]) == |p.body| + 4
            && s[4..4 + (|p.body| + 4)] == ToBigEndian(p.cmd, 4) + p.body
            && s[4 + (|p.body| + 4)..] == rest
            && BigEndian(ToBigEndian(p.cmd, 4)) == p.cmd
  {
    FourBytes(|p.body| + 4);
    FourBytes(p.cmd);
    assert p.cmd % TWO_32 == p.cmd && (|p.body| + 4) % TWO_32 == |p.body| + 4;
    Slices(ToBigEndian(|p.body| + 4, 4), ToBigEndian(p.cmd, 4), p.body, rest);
  }

  function Before(commands: seq<Command>, more: Reading): Reading {
    more.(commands := commands + more.commands)
  }

  lemma BeforeTwice(a: seq<Command>, b: seq<Command>, more: Reading)
    ensures Before(a, Before(b, more)) == Before(a + b, more) && Before([], more) == more
  {
    assert a + (b + more.commands) == a + b + more.commands && [] + more.commands == more.commands;
  }

  function CarriedOne(r: Receiver, p: Packet): seq<Command> {
    if IsHeartbeat(r, p) then [] else [Command(p.cmd, p.body)]
  }

  /** One acceptable packet at the front of the stream is read as it was written. */
  lemma ReadOne(r: Receiver, p: Packet, rest: seq<Byte>)
    requires Accepted(r, p)
    ensures Read(r, Bytes(p) + rest) == Before(CarriedOne(r, p), Read(r, rest))
  {
    HeaderSays(p, rest);
    var data := ToBigEndian(p.cmd, 4) + p.body;
    assert data[..4] == ToBigEndian(p.cmd, 4) && data[4..] == p.body;
    BeforeTwice([], [], Read(r, rest));
  }

  /** The length-prefix reader recovers exactly the packets, whatever follows them. */
  lemma {:induction false} ReaderRecovers(r: Receiver, ps: seq<Packet>, rest: seq<Byte>)
    requires forall i :: 0 <= i < |ps| ==> Accepted(r, ps[i])
    ensures Read(r, AllBytes(ps) + rest) == Before(Carried(r, ps), Read(r, rest))
    decreases |ps|
  {
    if ps == [] {
      assert AllBytes(ps) + rest == rest;
      BeforeTwice([], [], Read(r, rest));
    } else {
      assert AllBytes(ps) + rest == Bytes(ps[0]) + (AllBytes(ps[1..]) + rest);
      ReaderRecovers(r, ps[1..], rest);
      ReadOne(r, ps[0], AllBytes(ps[1..]) + rest);
      BeforeTwice(CarriedOne(r, ps[0]), Carried(r, ps[1..]), Read(r, rest));
    }
  }

  /** A packet that is cut off carries nothing. */
  lemma CutPacket(r: Receiver, p: Packet, n: nat)
    requires Accepted(r, p) && n < |Bytes(p)|
    ensures Read(r, Bytes(p)[..n]) == Reading([], StreamEnded)
  {
    var s := Bytes(p)[..n];
    HeaderSays(p, []);
    assert Bytes(p) + [] == Bytes(p);
    if n >= 4 { assert s[..4] == Bytes(p)[..4]; }
  }

  // ---- what the reader answers, case by case ----

  /** The four bytes of a number below 2^32, highest first. */
  function Octets4(n: nat): seq<Byte> {
    [n / 0x100_0000 % 256, n / 0x1_0000 % 256, n / 0x100 % 256, n % 256]
  }

  lemma FourOctets(n: nat)
    ensures ToBigEndian(n, 4) == Octets4(n)
  {
    assert ToBigEndian(n / 0x100_0000, 1) == [n / 0x100_0000 % 256] by { assert ToBigEndian(n, 0) == []; }
    assert n / 0x1_0000 / 256 == n / 0x100_0000 && n / 0x100 / 256 == n / 0x1_0000;
    assert ToBigEndian(n / 0x1_0000, 2) == ToBigEndian(n / 0x100_0000, 1) + [n / 0x1_0000 % 256];
    assert ToBigEndian(n / 0x100, 3) == ToBigEndian(n / 0x1_0000, 2) + [n / 0x100 % 256];
    assert ToBigEndian(n, 4) == ToBigEndian(n / 0x100, 3) + [n % 256];
  }

  /** The header of a packet: the length of command and body, then the command. */
  lemma HeaderOctets(p: Packet)
    requires WellFormed(p)
    ensures Header(p) == Octets4(|p.body| + 4) + Octets4(p.cmd)
  {
    assert (|p.body| + 4) % TWO_32 == |p.body| + 4 && p.cmd % TWO_32 == p.cmd;
    FourOctets(|p.body| + 4);
    FourOctets(p.cmd);
  }

  /** A length above the limit ends the reading, whatever follows, and before any of it is awaited. */
  lemma OverLimit(r: Receiver, length: nat, rest: seq<Byte>)
    requires r.limit < length < TWO_32
    ensures Read(r, ToBigEndian(length, 4) + rest) == Reading([], TooLarge)
  {
    FourBytes(length);
    assert (ToBigEndian(length, 4) + rest)[..4] == ToBigEndian(length, 4);
  }

  /** Fewer than four bytes, or fewer than announced, are the end of the stream. */
  lemma CutShort(r: Receiver, length: nat, rest: seq<Byte>)
    requires |rest| < length <= r.limit && length < TWO_32
    ensures Read(r, ToBigEndian(length, 4) + rest) == Reading([], StreamEnded)
    ensures |rest| < 4 ==> Read(r, rest) == Reading([], StreamEnded)
  {
    FourBytes(length);
    assert (ToBigEndian(length, 4) + rest)[..4] == ToBigEndian(length, 4);
  }

  predicate Sized(r: Receiver, data: seq<Byte>) {
    |data| <= r.limit && |data| < TWO_32
  }

  lemma Framed(data: seq<Byte>, rest: seq<Byte>)
    requires |data| < TWO_32
    ensures var s := ToBigEndian(|data|, 4) + data + rest;
            && |s| == 4 + |data| + |rest| && BigEndian(s[..4]) == |data|
            && s[4..4 + |data|] == data && s[4 + |data|..] == rest
  {
    FourBytes(|data|);
    var s := ToBigEndian(|data|, 4) + data + rest;
    assert s[..4] == ToBigEndian(|data|, 4);
    assert s[4..4 + |data|] == data && s[4 + |data|..] == rest;
  }

  /** A heartbeat is passed over. */
  lemma HeartbeatIsSkipped(r: Receiver, rest: seq<Byte>)
    requires Sized(r, r.heartbeat)
    ensures Read(r, ToBigEndian(|r.heartbeat|, 4) + r.heartbeat + rest) == Read(r, rest)
  {
    Framed(r.heartbeat, rest);
  }

  /** Less than a command ends the reading. */
  lemma TooSmall(r: Receiver, data: seq<Byte>, rest: seq<Byte>)
    requires Sized(r, data) && data != r.heartbeat && |data| < 4
    ensures Read(r, ToBigEndian(|data|, 4) + data + rest) == Reading([], NoCommand)
  {
    Framed(data, rest);
  }

  /** So does a command that nobody knows. */
  lemma Unknown(r: Receiver, cmd: nat, param: seq<Byte>, rest: seq<Byte>)
    requires cmd < TWO_32 && !r.known(cmd)
    requires var data := ToBigEndian(cmd, 4) + param; Sized(r, data) && data != r.heartbeat
    ensures Read(r, ToBigEndian(|param| + 4, 4) + (ToBigEndian(cmd, 4) + param) + rest) == Reading([], UnknownCommand)
  {
    var data := ToBigEndian(cmd, 4) + param;
    Framed(data, rest);
    FourBytes(cmd);
    assert data[..4] == ToBigEndian(cmd, 4);
  }

  /** On any stream: every command that is acted on is known and fits the limit. */
  lemma {:induction false} ActedOnIsAcceptable(r: Receiver, stream: seq<Byte>)
    ensures forall c :: c in Read(r, stream).commands ==> r.known(c.cmd) && |c.param| + 4 <= r.limit
    decreases |stream|
  {
    if |stream| >= 4 {
      var length := BigEndian(stream[..4]);
      if |stream| >= 4 + length { ActedOnIsAcceptable(r, stream[4 + length..]); }
    }
  }
}
