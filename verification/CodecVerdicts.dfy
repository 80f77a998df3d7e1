/** What a peer gets to see, spelled out: which messages are delivered, which fail the connection and with
    which status, and what happens to close, ping and pong frames. */
module CodecVerdicts {
  import opened Options
  import opened Octets
  import opened CodecSpec
  import opened CodecInvariant
  import opened CodecChunking
  import opened CodecRoundTrip
  import opened CodecMessages

  // ---- masking, bit by bit ----

  function Bit(x: nat, k: nat): nat {
    if k == 0 then x % 2 else Bit(x / 2, k - 1)
  }

  lemma {:induction false} XorBits(x: nat, y: nat, k: nat)
    ensures Bit(Xor(x, y), k) == (Bit(x, k) + Bit(y, k)) % 2
    decreases k
  {
    XorHalves(x, y);
    if k > 0 { XorBits(x / 2, y / 2, k - 1); }
  }

  /** Section 5.3 of RFC 6455: bit `k` of octet `i` is the exclusive or with that bit of octet `i` modulo 4 of the
      mask. */
  lemma CipherBits(payload: seq<Byte>, mask: seq<Byte>, i: nat, k: nat)
    requires |mask| == 4 && i < |payload|
    ensures Bit(Cipher(payload, mask)[i], k) == (Bit(payload[i], k) + Bit(mask[i % 4], k)) % 2
  {
    XorBits(payload[i], mask[i % 4], k);
  }

  // ---- one frame in literal bytes ----

  /** Five letters in a text message, masked with zeros. */
  const HELLO: seq<Byte> := [0x81, 0x85, 0, 0, 0, 0, 0x48, 0x65, 0x6c, 0x6c, 0x6f]
  const LETTERS: seq<Byte> := [0x48, 0x65, 0x6c, 0x6c, 0x6f]

  lemma ZeroMask(payload: seq<Byte>)
    ensures Cipher(payload, [0, 0, 0, 0]) == payload
  {
    forall i | 0 <= i < |payload|
      ensures Cipher(payload, [0, 0, 0, 0])[i] == payload[i]
    {
      assert Xor(payload[i], 0) == payload[i];
    }
  }

  /** The state after the frame. */
  function Opened(): Codec {
    NewCodec(false, false).(curr := TEXT, currPayload := [LETTERS])
  }

  lemma HelloIsTaken()
    ensures TakeFrame(NewCodec(false, false), HELLO) == Frame(Opened(), 11, true)
  {
    var c := NewCodec(false, false);
    ZeroMask(LETTERS);
    assert PayloadLength(HELLO, 5) == 5 && HELLO[2..6] == [0, 0, 0, 0] && HELLO[6..11] == LETTERS;
    assert Remember(c, 0, TEXT).currPayload + [LETTERS] == [LETTERS];
  }

  lemma HelloIsComplete(env: Env)
    ensures Complete(env, Opened()) == if env.validUtf8(LETTERS) then Payload(LETTERS) else Invalid(BadUtf8)
  {
    MergeOne(LETTERS);
  }

  /** A new connection delivers them, or refuses them as text. */
  lemma HelloIsDelivered(env: Env)
    ensures Drain(env, NewCodec(false, false), HELLO).events ==
              [if env.validUtf8(LETTERS) then Received(1, LETTERS) else Failed(1007, BadUtf8)]
  {
    HelloIsTaken();
    HelloIsComplete(env);
    assert HELLO[11..] == [];
    assert Drain(env, ResetCurrent(Opened()), []).events == [];
  }

  // ---- data messages ----

  /** A message in one frame or in many, with pings and pongs in between, in any arrivals: the control messages are
      handled where they stand, then the message is delivered or fails the connection, with 1007 if it cannot be
      inflated or is a text that is not UTF-8. */
  lemma MessageVerdict(env: Env, c: Codec, m: Message, chunks: seq<seq<Byte>>)
    requires NoMessageOpen(c) && Sendable(c.compress, m) && PongsGoOut(env)
    requires Concat(chunks) == EncodeAll(Frames(c.compress, m))
    ensures var shown := Events(ArriveAll(env, Alive(c, [], []), chunks));
            var before, op := ControlEvents(m.Inner()), m.first.op;
            if m.first.rsv == 4 && !HasControl(m.Inner()) then
              match env.inflate(m.Raw())
              case None => shown == before + [Failed(1007, BadDeflate)]
              case Some(plain) =>
                shown == before + [if op == 1 && !env.validUtf8(plain) then Failed(1007, BadUtf8)
                                   else Received(op, plain)]
            else
              shown == before + [if op == 1 && !env.validUtf8(m.Raw()) then Failed(1007, BadUtf8)
                                 else Received(op, m.Raw())]
  {
    DecodedMessage(env, c, m, chunks);
  }

  // ---- control messages ----

  predicate ControlFrame(w: Wire, op: int) {
    Encodable(w) && w.op == op && w.fin && w.rsv == 0 && |w.payload| <= 125
  }

  /** The codes that end a connection when a peer sends them. */
  predicate RefusedCode(code: int) {
    code < 1000 || code in {1004, 1005, 1006, 1016, 1100, 2000, 2999}
  }

  /** A close frame is echoed, unless this side has sent one before. */
  function CloseAnswer(closed: bool, payload: seq<Byte>): seq<Event> {
    [Received(8, payload)] + if closed then [] else [Replied(8, payload, true)]
  }

  /** The code is in the first two octets. */
  function CodeOf(p: seq<Byte>): int
    requires |p| >= 2
  {
    256 * (p[0] as int) + p[1] as int
  }

  function CloseShown(env: Env, closed: bool, p: seq<Byte>): seq<Event> {
    if |p| == 1 then [Failed(1002, BadCloseLength)]
    else if |p| >= 2 && RefusedCode(CodeOf(p)) then [Failed(1002, BadCloseCode)]
    else if |p| > 2 && !env.validUtf8(p[2..]) then [Failed(1007, BadUtf8)]
    else CloseAnswer(closed, p)
  }

  lemma BigEndianOfTwo(a: Byte, b: Byte)
    ensures BigEndian([a, b]) == 256 * a + b
  {
    assert [a, b][..1] == [a];
    BigEndianOfOne(a);
  }

  lemma CloseResult(env: Env, deflated: bool, p: seq<Byte>)
    requires |p| <= 125
    ensures Validate(env, CLOSE, deflated, p) ==
            if |p| == 1 then Invalid(BadCloseLength)
            else if |p| >= 2 && RefusedCode(CodeOf(p)) then Invalid(BadCloseCode)
            else if |p| > 2 && !env.validUtf8(p[2..]) then Invalid(BadUtf8)
            else Payload(p)
  {
    if |p| >= 2 {
      assert p[..2] == [p[0], p[1]];
      BigEndianOfTwo(p[0], p[1]);
    }
  }

  lemma ControlIsTaken(c: Codec, r: Ref, w: Wire)
    requires Represents(c, r) && IsControl(w.op)
    ensures var t := Took(c, w);
            && t.curr == w.op && Merge(t.currPayload) == w.payload
            && t.closed == c.closed && t.compress == c.compress && t.pongs == c.pongs
  {
    MergeOne(w.payload);
    assert Took(c, w).currPayload == [w.payload];
  }

  lemma CloseHandled(env: Env, t: Codec, p: seq<Byte>)
    requires t.curr == CLOSE && Merge(t.currPayload) == p && |p| <= 125
    ensures Handle(env, t, true) == Stop(CloseShown(env, t.closed, p))
  {
    CloseResult(env, t.compress && t.rsv == 4, p);
    if !t.closed { assert [Received(8, p)] + [Replied(8, p, true)] == [Received(8, p), Replied(8, p, true)]; }
  }

  lemma ControlFits(compress: bool, open: Option<OpenMessage>, w: Wire, op: int)
    requires ControlFrame(w, op) && ControlOpcode(op)
    ensures Fitting(compress, open, w) && IsControl(w.op)
  {
  }

  lemma CloseDrained(env: Env, c: Codec, r: Ref, w: Wire, rest: seq<Byte>)
    requires Represents(c, r) && ControlFrame(w, 8)
    ensures Drain(env, c, Encode(w) + rest) == Dead(CloseShown(env, c.closed, w.payload))
  {
    ControlFits(c.compress, r.open, w, 8);
    DrainOne(env, c, r, w, rest);
    ControlIsTaken(c, r, w);
    CloseHandled(env, Took(c, w), w.payload);
  }

  /** Any close frame, between any two frames and in any arrivals, ends the connection: with 1002 if its payload is a
      single byte or its code is refused, with 1007 if its reason is not UTF-8, and else with its echo. */
  lemma CloseVerdict(env: Env, c: Codec, r: Ref, w: Wire, rest: seq<Byte>, chunks: seq<seq<Byte>>)
    requires Represents(c, r) && ControlFrame(w, 8) && Concat(chunks) == Encode(w) + rest
    ensures ArriveAll(env, Alive(c, [], []), chunks) == Dead(CloseShown(env, c.closed, w.payload))
  {
    ChunkingIndependent(env, c, chunks);
    CloseDrained(env, c, r, w, rest);
  }

  /** A ping between any two frames is delivered and answered with its payload; if the answer cannot be written the
      connection is given up, and else what follows is decoded, the open message being what it was. */
  lemma PingVerdict(env: Env, c: Codec, r: Ref, w: Wire, rest: seq<Byte>) returns (next: Codec)
    requires Represents(c, r) && ControlFrame(w, 9)
    ensures var shown := [Received(9, w.payload), Replied(10, w.payload, env.pongWritten(c.pongs))];
            Drain(env, c, Encode(w) + rest) ==
              if env.pongWritten(c.pongs) then Prepend(shown, Drain(env, next, rest)) else Dead(shown)
    ensures Represents(next, r.(pongs := r.pongs + 1, open := NextOpen(r.open, w))) && next.compress == c.compress
  {
    next := AfterPing(Took(c, w));
    PingDrained(env, c, r, w, rest);
    PingLeaves(c, r, w);
  }

  function AfterPing(t: Codec): Codec {
    ResetCurrent(t.(pongs := t.pongs + 1))
  }

  lemma PingLeaves(c: Codec, r: Ref, w: Wire)
    requires Represents(c, r) && ControlFrame(w, 9)
    ensures Represents(AfterPing(Took(c, w)), r.(pongs := r.pongs + 1, open := NextOpen(r.open, w)))
    ensures AfterPing(Took(c, w)).compress == c.compress
  {
    ControlFits(c.compress, r.open, w, 9);
    ControlTook(c, r, w);
  }

  lemma PingDrained(env: Env, c: Codec, r: Ref, w: Wire, rest: seq<Byte>)
    requires Represents(c, r) && ControlFrame(w, 9)
    ensures var shown := [Received(9, w.payload), Replied(10, w.payload, env.pongWritten(c.pongs))];
            Drain(env, c, Encode(w) + rest) ==
              if env.pongWritten(c.pongs) then Prepend(shown, Drain(env, AfterPing(Took(c, w)), rest)) else Dead(shown)
  {
    ControlFits(c.compress, r.open, w, 9);
    DrainOne(env, c, r, w, rest);
    ControlIsTaken(c, r, w);
    PingHandled(env, Took(c, w), w.payload);
  }

  lemma PingHandled(env: Env, t: Codec, p: seq<Byte>)
    requires t.curr == PING && Merge(t.currPayload) == p
    ensures var shown := [Received(9, p), Replied(10, p, env.pongWritten(t.pongs))];
            Handle(env, t, true) ==
              if env.pongWritten(t.pongs) then Continue(AfterPing(t), shown) else Stop(shown)
  {
  }

  /** A pong is delivered and leads to nothing. */
  lemma PongVerdict(env: Env, c: Codec, r: Ref, w: Wire, rest: seq<Byte>) returns (next: Codec)
    requires Represents(c, r) && ControlFrame(w, 10)
    ensures Drain(env, c, Encode(w) + rest) == Prepend([Received(10, w.payload)], Drain(env, next, rest))
    ensures Represents(next, r.(open := NextOpen(r.open, w))) && next.compress == c.compress
  {
    DrainOne(env, c, r, w, rest);
    ControlAgrees(env, c, r, w);
    CompressFixed(env, c, w);
    next := Handle(env, Took(c, w), w.fin).c;
  }

  // ---- faults of frames ----

  /** Whatever is wrong with a frame, the connection is failed with 1002. */
  lemma FrameFaultsAre1002(env: Env, c: Codec, buf: seq<Byte>)
    requires TakeFrame(c, buf).Faulty?
    ensures Drain(env, c, buf) == Dead([Failed(1002, TakeFrame(c, buf).fault)])
  {
  }

  /** A complete frame that may not come now fails the connection with 1002, in any arrivals. */
  lemma IllegalFrameIs1002(env: Env, c: Codec, r: Ref, w: Wire, rest: seq<Byte>, chunks: seq<seq<Byte>>)
    requires Represents(c, r) && Encodable(w) && Concat(chunks) == Encode(w) + rest
    requires !Fitting(c.compress, r.open, w) && !UnfinishedControl(c.compress, r.open, w)
    ensures exists fault :: ArriveAll(env, Alive(c, [], []), chunks) == Dead([Failed(1002, fault)])
  {
    ChunkingIndependent(env, c, chunks);
    AcceptedIffLegal(c, r, w, rest);
    FrameFaultsAre1002(env, c, Encode(w) + rest);
  }

  /** So does an unmasked frame that passes the checks of its first byte. */
  lemma UnmaskedIs1002(env: Env, c: Codec, buf: seq<Byte>)
    requires |buf| >= 2 && buf[1] < 128 && OpeningFault(c, buf[0] / 16 % 8, buf[0] % 16).None?
    ensures Drain(env, c, buf) == Dead([Failed(1002, NotMasked)])
  {
  }

  // ---- given up or alive ----

  /** An event after which the connection is given up. */
  predicate Final(e: Event) {
    e.Failed? || e.Panicked? || (e.Received? && e.op == 8) || (e.Replied? && (e.op == 8 || !e.written))
  }

  predicate NoneFinal(events: seq<Event>) {
    forall i :: 0 <= i < |events| ==> !Final(events[i])
  }

  predicate EndsWithFinal(events: seq<Event>) {
    events != [] && Final(events[|events| - 1])
  }

  lemma HandledFinal(env: Env, c: Codec, fin: bool)
    ensures match Handle(env, c, fin)
            case Stop(events) => EndsWithFinal(events)
            case Continue(_, events) => NoneFinal(events)
  {
  }

  /** A connection that was given up has shown a final event last, and one that is alive has shown none. */
  predicate FinalExactly(o: Outcome) {
    match o
    case Dead(events) => EndsWithFinal(events)
    case Alive(_, _, events) => NoneFinal(events)
  }

  lemma PrependedFinal(events: seq<Event>, o: Outcome)
    requires NoneFinal(events) && FinalExactly(o)
    ensures FinalExactly(Prepend(events, o))
  {
    if o.Dead? {
      var all := events + o.events;
      assert all[|all| - 1] == o.events[|o.events| - 1];
    }
  }

  lemma {:induction false} DrainFinal(env: Env, c: Codec, buf: seq<Byte>)
    ensures FinalExactly(Drain(env, c, buf))
    decreases |buf|
  {
    FrameUses(c, buf);
    match TakeFrame(c, buf)
    case Frame(c', used, fin) =>
      HandledFinal(env, c', fin);
      match Handle(env, c', fin) {
        case Continue(c'', events) =>
          DrainFinal(env, c'', buf[used..]);
          PrependedFinal(events, Drain(env, c'', buf[used..]));
        case Stop(_) =>
      }
    case _ =>
  }

  /** In every run the connection is given up exactly when it has shown a failure, a panic, a close message or an
      answer that could not be written. */
  lemma GivenUpExactly(env: Env, compress: bool, closed: bool, chunks: seq<seq<Byte>>)
    ensures var o := ArriveAll(env, Alive(NewCodec(compress, closed), [], []), chunks);
            o.Dead? <==> exists i :: 0 <= i < |o.events| && Final(o.events[i])
  {
    ChunkingIndependent(env, NewCodec(compress, closed), chunks);
    DrainFinal(env, NewCodec(compress, closed), Concat(chunks));
  }
}
