/** The receive side of a WebSocket connection as functions: one frame, one message, one arrival. */
module CodecSpec {
  import opened Options
  import opened Octets

  const NO_OPCODE := 255
  const CONTINUATION := 0
  const TEXT := 1
  const BINARY := 2
  const CLOSE := 8
  const PING := 9
  const PONG := 10

  const TWO_63: int := 0x8000_0000_0000_0000
  const TWO_64: int := 0x1_0000_0000_0000_0000

  /** Deflate, UTF-8 validity and the success of writing the n-th pong belong to the environment. */
  datatype Env = Env(inflate: seq<Byte> -> Option<seq<Byte>>, validUtf8: seq<Byte> -> bool, pongWritten: nat -> bool)

  /** Why a connection is failed; the first eleven and the two about close frames are protocol errors. */
  datatype Fault =
    | UnsupportedOpcode | RsvWithoutExtension | RsvOnControl | ControlFragmented | NotContinuation
    | RsvOnContinuation | NotMasked | LengthTopBit | ControlTooLong | BadFirstRsv | NothingToContinue
    | BadCloseLength | BadCloseCode
    | BadDeflate | BadUtf8
  {
    function Status(): int {
      if BadDeflate? || BadUtf8? then 1007 else 1002
    }
  }

  /** What the connection shows to the outside, in order. `Failed` sends a close frame with that status. */
  datatype Event =
    | Received(op: int, payload: seq<Byte>)
    | Replied(op: int, payload: seq<Byte>, written: bool)
    | Failed(status: int, fault: Fault)
    | Panicked

  function Fail(fault: Fault): Event {
    Failed(fault.Status(), fault)
  }

  /** The fields of the codec; fragments are kept unmasked. */
  datatype Codec = Codec(
    compress: bool,
    closed: bool,
    pongs: nat,
    pre: int,
    prePayload: seq<seq<Byte>>,
    curr: int,
    currPayload: seq<seq<Byte>>,
    rsv: int)

  function NewCodec(compress: bool, closed: bool): Codec {
    Codec(compress, closed, 0, NO_OPCODE, [], NO_OPCODE, [], 0)
  }

  predicate IsControl(op: int) {
    op / 8 % 2 == 1
  }

  predicate KnownOpcode(op: int) {
    op == CONTINUATION || op == TEXT || op == BINARY || op == CLOSE || op == PING || op == PONG
  }

  // ---- masking ----

  function Xor(x: nat, y: nat): nat
    decreases x + y
  {
    if x == 0 then y else if y == 0 then x else (x + y) % 2 + 2 * Xor(x / 2, y / 2)
  }

  lemma {:induction false} XorBounded(x: nat, y: nat, bits: nat)
    requires x < Bits(bits) && y < Bits(bits)
    ensures Xor(x, y) < Bits(bits)
    decreases bits
  {
    if x != 0 && y != 0 {
      XorBounded(x / 2, y / 2, bits - 1);
    }
  }

  function Bits(n: nat): nat {
    if n == 0 then 1 else 2 * Bits(n - 1)
  }

  /** The last bit and the other bits of an exclusive or. */
  lemma XorHalves(x: nat, y: nat)
    ensures Xor(x, y) % 2 == (x + y) % 2 && Xor(x, y) / 2 == Xor(x / 2, y / 2)
  {
    if x == 0 {
      assert Xor(0, y / 2) == y / 2;
    } else if y == 0 {
      assert Xor(x / 2, 0) == x / 2;
    } else {
      var b, h := (x + y) % 2, Xor(x / 2, y / 2);
      assert Xor(x, y) == b + 2 * h;
    }
  }

  lemma LastBitTwice(x: nat, y: nat, z: nat)
    requires z % 2 == (x + y) % 2
    ensures (z + y) % 2 == x % 2
  {
  }

  lemma SameHalves(x: nat, y: nat)
    requires x % 2 == y % 2 && x / 2 == y / 2
    ensures x == y
  {
  }

  lemma {:induction false} XorTwice(x: nat, y: nat)
    ensures Xor(Xor(x, y), y) == x
    decreases x + y
  {
    if x != 0 || y != 0 {
      var z := Xor(x, y);
      XorHalves(x, y);
      XorHalves(z, y);
      XorTwice(x / 2, y / 2);
      LastBitTwice(x, y, z);
      SameHalves(Xor(z, y), x);
    }
  }

  function XorByte(x: Byte, y: Byte): Byte {
    assert Bits(8) == 256;
    XorBounded(x, y, 8);
    Xor(x, y)
  }

  /** `ws.Cipher` at offset 0: byte `i` meets mask byte `i % 4`. */
  function Cipher(payload: seq<Byte>, mask: seq<Byte>): (r: seq<Byte>)
    requires |mask| == 4
    ensures |r| == |payload|
  {
    seq(|payload|, i requires 0 <= i < |payload| => XorByte(payload[i], mask[i % 4]))
  }

  /** Masking is its own inverse. */
  lemma CipherTwice(payload: seq<Byte>, mask: seq<Byte>)
    requires |mask| == 4
    ensures Cipher(Cipher(payload, mask), mask) == payload
  {
    forall i | 0 <= i < |payload|
      ensures Cipher(Cipher(payload, mask), mask)[i] == payload[i]
    {
      XorTwice(payload[i], mask[i % 4]);
    }
  }

  // ---- one frame ----

  /** Go's conversion to a signed 64-bit integer. */
  function Int64(x: int): int {
    if x >= TWO_63 then x - TWO_64 else x
  }

  datatype Taken =
    | More(c: Codec)
    | Faulty(fault: Fault)
    | Crash
    | Frame(c: Codec, used: nat, fin: bool)

  /** The checks on the first byte, in the order of the code. */
  function OpeningFault(c: Codec, rsv: int, op: int): Option<Fault> {
    if !KnownOpcode(op) then Some(UnsupportedOpcode)
    else if rsv != 0 && !c.compress then Some(RsvWithoutExtension)
    else if rsv != 0 && IsControl(op) then Some(RsvOnControl)
    else if c.curr == NO_OPCODE then None
    else if IsControl(c.curr) then Some(ControlFragmented)
    else if IsControl(op) then None
    else if op != CONTINUATION then Some(NotContinuation)
    else if c.compress && rsv != 0 then Some(RsvOnContinuation)
    else None
  }

  /** A control frame between two fragments: the half-received message moves to the save slot. This
      happens before the frame is known to be complete. */
  function SetAside(c: Codec, op: int): Codec {
    if c.curr != NO_OPCODE && IsControl(op) then
      c.(pre := c.curr, prePayload := c.currPayload, curr := NO_OPCODE, currPayload := [])
    else c
  }

  /** Bytes after the first two that precede the payload: extended length and mask. */
  function Extra(length7: int): nat {
    if length7 < 126 then 4 else if length7 == 126 then 6 else 12
  }

  function PayloadLength(buf: seq<Byte>, length7: int): nat
    requires |buf| >= 2 + Extra(length7) && 0 <= length7 < 128
  {
    if length7 < 126 then length7 else BigEndian(buf[2..Extra(length7) - 2])
  }

  /** What remains to be checked once a whole frame is there, and the opcode and RSV bits to remember. */
  function FirstFrameFault(c: Codec, rsv: int, op: int): Option<Fault> {
    if c.curr != NO_OPCODE then None
    else if c.compress && rsv != 4 && rsv != 0 then Some(BadFirstRsv)
    else if op == CONTINUATION then Some(NothingToContinue)
    else None
  }

  function Remember(c: Codec, rsv: int, op: int): Codec {
    if c.curr == NO_OPCODE then c.(rsv := rsv, curr := op) else c
  }

  function TakeBody(c: Codec, fin: bool, rsv: int, op: int, buf: seq<Byte>): Taken
    requires |buf| >= 2
  {
    if buf[1] < 128 then Faulty(NotMasked) else
    var length7 := buf[1] % 128;
    var start := 2 + Extra(length7);
    if |buf| < start then More(c)
    else if length7 == 127 && buf[2] >= 128 then Faulty(LengthTopBit)
    else
      var length := PayloadLength(buf, length7);
      if IsControl(op) && length > 125 then Faulty(ControlTooLong)
      else if |buf| - start + 4 < Int64(length + 4) then More(c)
      else
        match FirstFrameFault(c, rsv, op)
        case Some(fault) => Faulty(fault)
        case None =>
          if Int64(length + 4) != length + 4 then Crash  // the bound of the slice expression overflowed
          else
            var mask, payload := buf[start - 4..start], buf[start..start + length];
            var r := Remember(c, rsv, op);
            Frame(r.(currPayload := r.currPayload + [Cipher(payload, mask)]), start + length, fin)
  }

  /** One turn of the loop of `decode`. */
  function TakeFrame(c: Codec, buf: seq<Byte>): Taken {
    if |buf| < 2 then More(c)
    else
      var fin, rsv, op := buf[0] >= 128, buf[0] / 16 % 8, buf[0] % 16;
      match OpeningFault(c, rsv, op)
      case Some(fault) => Faulty(fault)
      case None => TakeBody(SetAside(c, op), fin, rsv, op, buf)
  }

  // ---- one message ----

  function Merge(fragments: seq<seq<Byte>>): seq<Byte> {
    if fragments == [] then [] else Merge(fragments[..|fragments| - 1]) + fragments[|fragments| - 1]
  }

  predicate ForbiddenCloseCode(code: int) {
    code <= 999 || code == 1004 || code == 1005 || code == 1006 || code == 1016 || code == 1100 || code == 2000
        || code == 2999
  }

  datatype Result = Payload(bytes: seq<Byte>) | Invalid(fault: Fault)

  /** Validation of a complete message: deflate, UTF-8, close code. */
  function Validate(env: Env, op: int, deflated: bool, raw: seq<Byte>): Result {
    if op == TEXT || op == BINARY then
      match if deflated then env.inflate(raw) else Some(raw)
      case None => Invalid(BadDeflate)
      case Some(bytes) => if op == TEXT && !env.validUtf8(bytes) then Invalid(BadUtf8) else Payload(bytes)
    else if op == CLOSE && |raw| > 0 then
      if |raw| == 1 || |raw| > 125 then Invalid(BadCloseLength)
      else if ForbiddenCloseCode(BigEndian(raw[..2])) then Invalid(BadCloseCode)
      else if |raw| > 2 && !env.validUtf8(raw[2..]) then Invalid(BadUtf8)
      else Payload(raw)
    else Payload(raw)
  }

  function Complete(env: Env, c: Codec): Result {
    Validate(env, c.curr, c.compress && c.rsv == 4, Merge(c.currPayload))
  }

  /** Back to no message, or to the message that was set aside; `rsv` is not restored. */
  function ResetCurrent(c: Codec): Codec {
    if c.pre == NO_OPCODE then c.(curr := NO_OPCODE, currPayload := [], rsv := 0)
    else c.(curr := c.pre, currPayload := c.prePayload, pre := NO_OPCODE, prePayload := [])
  }

  datatype Turn = Continue(c: Codec, events: seq<Event>) | Stop(events: seq<Event>)

  /** The dispatch of `OnTraffic` on a valid message. */
  function Dispatch(env: Env, c: Codec, payload: seq<Byte>): Turn {
    var received := Received(c.curr, payload);
    if !IsControl(c.curr) then Continue(ResetCurrent(c), [received])
    else if c.curr == CLOSE then
      Stop(if c.closed then [received] else [received, Replied(CLOSE, payload, true)])
    else if c.curr == PING then
      var written := env.pongWritten(c.pongs);
      var events := [received, Replied(PONG, payload, written)];
      if written then Continue(ResetCurrent(c.(pongs := c.pongs + 1)), events) else Stop(events)
    else
      // a pong is ignored; the branches for reserved opcodes are ruled out by `CodecInvariant.Inv`
      Continue(ResetCurrent(c), [received])
  }

  /** What a taken frame leads to: wait for the next fragment, or handle the finished message. */
  function Handle(env: Env, c: Codec, fin: bool): Turn {
    if !fin then Continue(c, [])
    else
      match Complete(env, c)
      case Invalid(fault) => Stop([Fail(fault)])
      case Payload(bytes) => Dispatch(env, c, bytes)
  }

  // ---- one arrival ----

  /** The connection after some bytes: alive with unconsumed bytes, or given up. */
  datatype Outcome = Alive(c: Codec, rest: seq<Byte>, events: seq<Event>) | Dead(events: seq<Event>)

  function Prepend(events: seq<Event>, o: Outcome): Outcome {
    o.(events := events + o.events)
  }

  lemma FrameUses(c: Codec, buf: seq<Byte>)
    ensures TakeFrame(c, buf).Frame? ==> 6 <= TakeFrame(c, buf).used <= |buf|
  {
  }

  /** The decode and dispatch loop of `OnTraffic` over everything that is buffered. */
  function Drain(env: Env, c: Codec, buf: seq<Byte>): Outcome
    decreases |buf|
  {
    FrameUses(c, buf);
    match TakeFrame(c, buf)
    case More(c') => Alive(c', buf, [])
    case Faulty(fault) => Dead([Fail(fault)])
    case Crash => Dead([Panicked])
    case Frame(c', used, fin) =>
      match Handle(env, c', fin)
      case Stop(events) => Dead(events)
      case Continue(c'', events) => Prepend(events, Drain(env, c'', buf[used..]))
  }

  /** One more arrival: the unconsumed bytes come first. */
  function Arrive(env: Env, o: Outcome, chunk: seq<Byte>): Outcome {
    match o
    case Dead(_) => o
    case Alive(c, rest, events) => Prepend(events, Drain(env, c, rest + chunk))
  }

  function ArriveAll(env: Env, o: Outcome, chunks: seq<seq<Byte>>): Outcome {
    if chunks == [] then o else Arrive(env, ArriveAll(env, o, chunks[..|chunks| - 1]), chunks[|chunks| - 1])
  }
}
