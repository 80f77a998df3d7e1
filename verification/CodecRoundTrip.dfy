/** Frames as RFC 6455 sections 5.2 and 5.3 put them on the wire, a reference for reassembly after its
    section 5.4, and the proof that the decoder agrees with it. */
module CodecRoundTrip {
  import opened Options
  import opened Octets
  import opened CodecSpec
  import opened CodecInvariant

  // ---- the wire ----

  datatype LengthForm = Seven | Sixteen | SixtyFour {
    function Width(): nat {
      match this case Seven => 0 case Sixteen => 2 case SixtyFour => 8
    }
  }

  datatype Wire = Wire(fin: bool, rsv: int, op: int, form: LengthForm, mask: seq<Byte>, payload: seq<Byte>)

  /** A masked frame that the bytes can express: any length form that can hold the length, any mask. */
  predicate Encodable(w: Wire) {
    && 0 <= w.rsv < 8
    && 0 <= w.op < 16
    && |w.mask| == 4
    && |w.payload| + 4 < TWO_63
    && (w.form.Seven? ==> |w.payload| < 126)
    && (w.form.Sixteen? ==> |w.payload| < 65536)
  }

  function LengthCode(w: Wire): nat {
    match w.form case Seven => |w.payload| case Sixteen => 126 case SixtyFour => 127
  }

  function Encode(w: Wire): seq<Byte>
    requires Encodable(w)
  {
    [(if w.fin then 128 else 0) + 16 * w.rsv + w.op, 128 + LengthCode(w)]
      + ToBigEndian(|w.payload|, w.form.Width())
      + w.mask
      + Cipher(w.payload, w.mask)
  }

  /** The three length forms decode to the length they encode. */
  lemma EncodedLength(w: Wire, rest: seq<Byte>)
    requires Encodable(w)
    ensures var buf := Encode(w) + rest;
            && |Encode(w)| == 2 + Extra(LengthCode(w)) + |w.payload|
            && |buf| >= 2 + Extra(LengthCode(w))
            && PayloadLength(buf, LengthCode(w)) == |w.payload|
            && (w.form.SixtyFour? ==> buf[2] < 128)
  {
    var buf := Encode(w) + rest;
    var width := w.form.Width();
    assert buf[2..2 + width] == ToBigEndian(|w.payload|, width);
    assert Capacity(0) == 1 && Capacity(1) == 256 && Capacity(2) == 65536;
    if w.form.SixtyFour? {
      assert Capacity(4) == 65536 * 65536;
      assert Capacity(6) == 65536 * Capacity(4);
      assert Capacity(8) == 65536 * Capacity(6) == TWO_64;
      TopByte(|w.payload|, 8);
    }
    if !w.form.Seven? { BigEndianRoundTrip(|w.payload|, width); }
  }

  /** The first byte of a number in the lower half has its top bit clear. */
  lemma {:induction false} TopByte(n: nat, width: nat)
    requires width > 0 && 2 * n < Capacity(width)
    ensures ToBigEndian(n, width)[0] < 128
  {
    if width > 1 { TopByte(n / 256, width - 1); }
  }

  /** A number whose first byte has the top bit clear is in the lower half. */
  lemma {:induction false} LowerHalf(bytes: seq<Byte>)
    requires bytes != [] && bytes[0] < 128
    ensures 2 * BigEndian(bytes) + 2 <= Capacity(|bytes|)
  {
    assert Capacity(1) == 256 && BigEndian([]) == 0;
    if |bytes| > 1 {
      LowerHalf(bytes[..|bytes| - 1]);
    } else {
      assert bytes[..0] == [];
    }
  }

  /** A data frame that passes the earlier checks makes the decoder panic exactly when its length is within
      four of 2^63: the sum with the size of the mask overflows. */
  lemma PanicsExactlyNearOverflow(c: Codec, fin: bool, rsv: int, op: int, buf: seq<Byte>)
    requires |buf| >= 14 && buf[1] == 255 && buf[2] < 128 && !IsControl(op) && FirstFrameFault(c, rsv, op).None?
    ensures TakeBody(c, fin, rsv, op, buf).Crash? <==> BigEndian(buf[2..10]) >= TWO_63 - 4
  {
    assert buf[1] % 128 == 127;
    LowerHalf(buf[2..10]);
    assert Capacity(4) == 0x1_0000_0000 by { assert Capacity(0) == 1 && Capacity(2) == 65536; }
    assert Capacity(8) == TWO_64 by { assert Capacity(6) == 65536 * Capacity(4); }
  }

  lemma FirstByte(fin: bool, rsv: nat, op: nat)
    requires rsv < 8 && op < 16
    ensures var b := (if fin then 128 else 0) + 16 * rsv + op;
            (b >= 128) == fin && b / 16 % 8 == rsv && b % 16 == op
  {
  }

  lemma EncodedHeader(w: Wire, rest: seq<Byte>)
    requires Encodable(w)
    ensures var buf := Encode(w) + rest;
            && |buf| >= 2
            && (buf[0] >= 128) == w.fin && buf[0] / 16 % 8 == w.rsv && buf[0] % 16 == w.op
            && buf[1] >= 128 && buf[1] % 128 == LengthCode(w)
  {
    var buf := Encode(w) + rest;
    FirstByte(w.fin, w.rsv, w.op);
    assert buf[0] == (if w.fin then 128 else 0) + 16 * w.rsv + w.op;
    assert buf[1] == 128 + LengthCode(w);
  }

  lemma EncodedParts(w: Wire, rest: seq<Byte>)
    requires Encodable(w)
    ensures var buf, start := Encode(w) + rest, 2 + Extra(LengthCode(w));
            && |buf| >= start + |w.payload| == |Encode(w)|
            && buf[start - 4..start] == w.mask
            && buf[start..start + |w.payload|] == Cipher(w.payload, w.mask)
            && buf[start + |w.payload|..] == rest
  {
  }

  /** A frame that passes the checks is taken whole, unmasked, and nothing behind it is looked at. */
  lemma TakeEncoded(c: Codec, w: Wire, rest: seq<Byte>)
    requires Encodable(w) && (IsControl(w.op) ==> |w.payload| <= 125)
    requires OpeningFault(c, w.rsv, w.op).None?
    requires FirstFrameFault(SetAside(c, w.op), w.rsv, w.op).None?
    ensures var r := Remember(SetAside(c, w.op), w.rsv, w.op);
            TakeFrame(c, Encode(w) + rest) == Frame(r.(currPayload := r.currPayload + [w.payload]), |Encode(w)|, w.fin)
  {
    EncodedHeader(w, rest);
    TakeEncodedBody(SetAside(c, w.op), w, rest);
  }

  lemma TakeEncodedBody(c: Codec, w: Wire, rest: seq<Byte>)
    requires Encodable(w) && (IsControl(w.op) ==> |w.payload| <= 125)
    requires FirstFrameFault(c, w.rsv, w.op).None?
    requires var buf := Encode(w) + rest; |buf| >= 2 && buf[1] >= 128 && buf[1] % 128 == LengthCode(w)
    ensures var r := Remember(c, w.rsv, w.op);
            TakeBody(c, w.fin, w.rsv, w.op, Encode(w) + rest) ==
              Frame(r.(currPayload := r.currPayload + [w.payload]), |Encode(w)|, w.fin)
  {
    EncodedLength(w, rest);
    EncodedParts(w, rest);
    CipherTwice(w.payload, w.mask);
  }

  // ---- the reference ----

  /** A message of which some fragments arrived; `interrupted` once a control frame came in between. */
  datatype OpenMessage = OpenMessage(op: int, payload: seq<Byte>, deflated: bool, interrupted: bool)

  datatype Ref = Ref(closed: bool, pongs: nat, open: Option<OpenMessage>)

  datatype RefTurn = Go(r: Ref, events: seq<Event>) | Halt(events: seq<Event>)

  /** The length is encoded in the fewest bytes, as section 5.2 demands. */
  predicate Minimal(w: Wire) {
    && (w.form.Sixteen? ==> |w.payload| > 125)
    && (w.form.SixtyFour? ==> |w.payload| > 65535)
  }

  /** The frames section 5.4 allows next, in any length form: complete short control frames anywhere, a text or binary
      frame when no message is open, a continuation when one is. RSV1 marks a deflated message
      (section 6 of RFC 7692) on its first frame. */
  predicate Fitting(compress: bool, open: Option<OpenMessage>, w: Wire) {
    && Encodable(w)
    && if IsControl(w.op) then ControlOpcode(w.op) && w.fin && w.rsv == 0 && |w.payload| <= 125
       else if open.None? then DataOpcode(w.op) && (w.rsv == 0 || (w.rsv == 4 && compress))
       else w.op == CONTINUATION && w.rsv == 0
  }

  /** The frames that RFC 6455 allows next. */
  predicate Legal(compress: bool, open: Option<OpenMessage>, w: Wire) {
    Fitting(compress, open, w) && Minimal(w)
  }

  /** A frame whose only fault is a length encoded in more bytes than needed. */
  predicate Overlong(compress: bool, open: Option<OpenMessage>, w: Wire) {
    Fitting(compress, open, w) && !Minimal(w)
  }

  /** A control frame without FIN that would fit with it. */
  predicate UnfinishedControl(compress: bool, open: Option<OpenMessage>, w: Wire) {
    IsControl(w.op) && !w.fin && Fitting(compress, open, w.(fin := true))
  }

  function Grow(open: Option<OpenMessage>, w: Wire): OpenMessage {
    match open
    case None => OpenMessage(w.op, w.payload, w.rsv == 4, false)
    case Some(m) => m.(payload := m.payload + w.payload)
  }

  function NextOpen(open: Option<OpenMessage>, w: Wire): Option<OpenMessage> {
    if IsControl(w.op) then
      match open case None => None case Some(m) => Some(m.(interrupted := true))
    else if w.fin then None
    else Some(Grow(open, w))
  }

  predicate FittingStream(compress: bool, open: Option<OpenMessage>, ws: seq<Wire>): (fits: bool)
    ensures fits ==> forall i :: 0 <= i < |ws| ==> Encodable(ws[i])
    decreases |ws|
  {
    ws != [] ==> Fitting(compress, open, ws[0]) && FittingStream(compress, NextOpen(open, ws[0]), ws[1..])
  }

  /** One frame: control messages take effect where they stand, fragments are collected. Deflate is
      undone at the end of a message that was marked; with `forgetful` only if it was not interrupted. */
  function RefStep(env: Env, forgetful: bool, r: Ref, w: Wire): RefTurn {
    var next := r.(open := NextOpen(r.open, w));
    if IsControl(w.op) then
      match Validate(env, w.op, false, w.payload)
      case Invalid(fault) => Halt([Fail(fault)])
      case Payload(_) =>
        if w.op == CLOSE then
          Halt(if r.closed then [Received(CLOSE, w.payload)]
              else [Received(CLOSE, w.payload), Replied(CLOSE, w.payload, true)])
        else if w.op == PING then
          var events := [Received(PING, w.payload), Replied(PONG, w.payload, env.pongWritten(r.pongs))];
          if env.pongWritten(r.pongs) then Go(next.(pongs := r.pongs + 1), events) else Halt(events)
        else Go(next, [Received(w.op, w.payload)])
    else if !w.fin then Go(next, [])
    else
      var m := Grow(r.open, w);
      match Validate(env, m.op, m.deflated && !(forgetful && m.interrupted), m.payload)
      case Invalid(fault) => Halt([Fail(fault)])
      case Payload(bytes) => Go(next, [Received(m.op, bytes)])
  }

  function RefRun(env: Env, forgetful: bool, r: Ref, ws: seq<Wire>): RefTurn
    decreases |ws|
  {
    if ws == [] then Go(r, [])
    else
      match RefStep(env, forgetful, r, ws[0])
      case Halt(events) => Halt(events)
      case Go(r', events) => Then(events, RefRun(env, forgetful, r', ws[1..]))
  }

  function Then(events: seq<Event>, u: RefTurn): RefTurn {
    u.(events := events + u.events)
  }

  function EncodeAll(ws: seq<Wire>): seq<Byte>
    requires forall i :: 0 <= i < |ws| ==> Encodable(ws[i])
  {
    if ws == [] then [] else Encode(ws[0]) + EncodeAll(ws[1..])
  }

  // ---- the decoder agrees with the reference ----

  /** The codec between two frames represents the reference state. */
  predicate Represents(c: Codec, r: Ref) {
    && c.closed == r.closed
    && c.pongs == r.pongs
    && c.pre == NO_OPCODE
    && c.prePayload == []
    && match r.open
       case None => c.curr == NO_OPCODE && c.currPayload == []
       case Some(m) =>
         && DataOpcode(m.op)
         && c.curr == m.op
         && c.currPayload != []
         && Merge(c.currPayload) == m.payload
         && (c.compress && c.rsv == 4) == (m.deflated && !m.interrupted)
  }

  lemma MergeOne(bytes: seq<Byte>)
    ensures Merge([bytes]) == bytes
  {
    assert [bytes][..0] == [] && Merge([]) == [];
  }

  lemma MergeMore(fragments: seq<seq<Byte>>, bytes: seq<Byte>)
    ensures Merge(fragments + [bytes]) == Merge(fragments) + bytes
  {
    assert (fragments + [bytes])[..|fragments|] == fragments;
  }

  /** What the decoder has made of the frame before the message is handled. */
  function Took(c: Codec, w: Wire): Codec {
    var r := Remember(SetAside(c, w.op), w.rsv, w.op);
    r.(currPayload := r.currPayload + [w.payload])
  }

  lemma LegalIsTaken(c: Codec, r: Ref, w: Wire, rest: seq<Byte>)
    requires Represents(c, r) && Fitting(c.compress, r.open, w)
    ensures TakeFrame(c, Encode(w) + rest) == Frame(Took(c, w), |Encode(w)|, w.fin)
    ensures (Encode(w) + rest)[|Encode(w)|..] == rest
  {
    TakeEncoded(c, w, rest);
  }

  /** What is wrong with any other frame is found on its first byte, or by one of the later checks. */
  lemma IllegalIsFaulty(c: Codec, r: Ref, w: Wire)
    requires Represents(c, r) && Encodable(w)
    requires !Fitting(c.compress, r.open, w) && !UnfinishedControl(c.compress, r.open, w)
    ensures OpeningFault(c, w.rsv, w.op).Some? || (IsControl(w.op) && |w.payload| > 125)
         || FirstFrameFault(SetAside(c, w.op), w.rsv, w.op).Some?
  {
  }

  lemma FaultyBody(c: Codec, w: Wire, rest: seq<Byte>)
    requires Encodable(w) && ((IsControl(w.op) && |w.payload| > 125) || FirstFrameFault(c, w.rsv, w.op).Some?)
    ensures |Encode(w) + rest| >= 2 && TakeBody(c, w.fin, w.rsv, w.op, Encode(w) + rest).Faulty?
  {
    EncodedHeader(w, rest);
    EncodedLength(w, rest);
    EncodedParts(w, rest);
  }

  /** Of the complete masked frames the decoder takes exactly the legal ones, those with an overlong length and
      the control frames without FIN; it refuses every other one on the spot. */
  lemma AcceptedIffLegal(c: Codec, r: Ref, w: Wire, rest: seq<Byte>)
    requires Represents(c, r) && Encodable(w)
    ensures TakeFrame(c, Encode(w) + rest).Frame? <==>
              Legal(c.compress, r.open, w) || Overlong(c.compress, r.open, w)
                  || UnfinishedControl(c.compress, r.open, w)
    ensures TakeFrame(c, Encode(w) + rest).Frame? || TakeFrame(c, Encode(w) + rest).Faulty?
  {
    EncodedHeader(w, rest);
    if Fitting(c.compress, r.open, w) || UnfinishedControl(c.compress, r.open, w) {
      TakeEncoded(c, w, rest);
    } else {
      IllegalIsFaulty(c, r, w);
      if OpeningFault(c, w.rsv, w.op).None? { FaultyBody(SetAside(c, w.op), w, rest); }
    }
  }

  lemma OverlongTaken(w: Wire)
    requires Overlong(false, None, w)
    ensures TakeFrame(NewCodec(false, false), Encode(w)).Frame? && !Legal(false, None, w)
  {
    assert Encode(w) + [] == Encode(w);
    AcceptedIffLegal(NewCodec(false, false), Ref(false, 0, None), w, []);
  }

  const LONG_TEXT: Wire := Wire(true, 0, TEXT, SixtyFour, [0, 0, 0, 0], [])
  const LONG_PING: Wire := Wire(true, 0, PING, Sixteen, [0, 0, 0, 0], [])

  /** Two frames that section 5.2 forbids and the decoder takes: an empty text with a 64-bit length, and an empty
      ping with a 16-bit length. */
  lemma OverlongIsTaken()
    ensures Encodable(LONG_TEXT) && !Legal(false, None, LONG_TEXT)
        && TakeFrame(NewCodec(false, false), Encode(LONG_TEXT)).Frame?
    ensures Encodable(LONG_PING) && !Legal(false, None, LONG_PING)
        && TakeFrame(NewCodec(false, false), Encode(LONG_PING)).Frame?
  {
    OverlongTaken(LONG_TEXT);
    OverlongTaken(LONG_PING);
  }

  // ---- arbitrary bytes ----

  function FormOf(length7: int): LengthForm {
    if length7 < 126 then Seven else if length7 == 126 then Sixteen else SixtyFour
  }

  /** The frame that the front of a buffer spells. */
  function Spelled(buf: seq<Byte>): Wire
    requires |buf| >= 2 && |buf| >= 2 + Extra(buf[1] % 128)
    requires |buf| >= 2 + Extra(buf[1] % 128) + PayloadLength(buf, buf[1] % 128)
  {
    var length7 := buf[1] % 128;
    var start := 2 + Extra(length7);
    var mask := buf[start - 4..start];
    Wire(buf[0] >= 128, buf[0] / 16 % 8, buf[0] % 16, FormOf(length7), mask,
         Cipher(buf[start..start + PayloadLength(buf, length7)], mask))
  }

  lemma SpelledEncodable(buf: seq<Byte>)
    requires |buf| >= 2 && |buf| >= 2 + Extra(buf[1] % 128)
    requires |buf| >= 2 + Extra(buf[1] % 128) + PayloadLength(buf, buf[1] % 128)
    requires PayloadLength(buf, buf[1] % 128) + 4 < TWO_63
    ensures Encodable(Spelled(buf))
  {
    if buf[1] % 128 == 126 {
      BigEndianBelow(buf[2..4]);
      assert Capacity(0) == 1 && Capacity(1) == 256 && Capacity(2) == 65536;
    }
  }

  lemma SpelledHeader(buf: seq<Byte>)
    requires |buf| >= 2 && buf[1] >= 128
    ensures buf[0] == (if buf[0] >= 128 then 128 else 0) + 16 * (buf[0] / 16 % 8) + buf[0] % 16
    ensures buf[1] == 128 + buf[1] % 128
  {
  }

  /** The frame spelled at the front of a buffer, encoded, is the front of the buffer. */
  lemma SpelledIsThere(buf: seq<Byte>)
    requires |buf| >= 2 && |buf| >= 2 + Extra(buf[1] % 128) && buf[1] >= 128
    requires |buf| >= 2 + Extra(buf[1] % 128) + PayloadLength(buf, buf[1] % 128)
    requires PayloadLength(buf, buf[1] % 128) + 4 < TWO_63
    ensures Encodable(Spelled(buf))
    ensures Encode(Spelled(buf)) == buf[..2 + Extra(buf[1] % 128) + PayloadLength(buf, buf[1] % 128)]
  {
    var w, length7 := Spelled(buf), buf[1] % 128;
    var start, length := 2 + Extra(length7), PayloadLength(buf, length7);
    SpelledEncodable(buf);
    SpelledHeader(buf);
    SpelledLength(buf);
    CipherTwice(buf[start..start + length], w.mask);
    Glued(buf, start - 4, start, start + length);
    assert buf[..2] == [buf[0], buf[1]];
  }

  lemma SpelledLength(buf: seq<Byte>)
    requires |buf| >= 2 && |buf| >= 2 + Extra(buf[1] % 128)
    requires |buf| >= 2 + Extra(buf[1] % 128) + PayloadLength(buf, buf[1] % 128)
    ensures ToBigEndian(|Spelled(buf).payload|, Spelled(buf).form.Width()) == buf[2..2 + Extra(buf[1] % 128) - 4]
    ensures Encodable(Spelled(buf)) ==> LengthCode(Spelled(buf)) == buf[1] % 128
  {
    if buf[1] % 128 >= 126 { ToBigEndianBack(buf[2..2 + Extra(buf[1] % 128) - 4]); }
  }

  lemma Glued(buf: seq<Byte>, i: nat, j: nat, k: nat)
    requires 2 <= i <= j <= k <= |buf|
    ensures buf[..2] + buf[2..i] + buf[i..j] + buf[j..k] == buf[..k]
  {
  }

  lemma TakenIsComplete(c: Codec, buf: seq<Byte>)
    requires TakeFrame(c, buf).Frame?
    ensures |buf| >= 2 && buf[1] >= 128 && |buf| >= 2 + Extra(buf[1] % 128)
    ensures var used := 2 + Extra(buf[1] % 128) + PayloadLength(buf, buf[1] % 128);
            used == TakeFrame(c, buf).used && |buf| >= used && PayloadLength(buf, buf[1] % 128) + 4 < TWO_63
  {
    var length7 := buf[1] % 128;
    BigEndianBelow(buf[2..Extra(length7) - 2]);
    assert Capacity(0) == 1 && Capacity(2) == 65536 && Capacity(4) == 65536 * Capacity(2);
    assert Capacity(8) == TWO_64 by { assert Capacity(6) == 65536 * Capacity(4); }
  }

  /** For arbitrary bytes: the decoder takes a frame exactly if the bytes begin with the encoding of a frame that
      is legal, or has an overlong length, or is a control frame without FIN; and it consumes just that. */
  lemma TakesExactly(c: Codec, r: Ref, buf: seq<Byte>)
    requires Represents(c, r)
    ensures TakeFrame(c, buf).Frame? <==>
            exists w :: && Encodable(w) && Encode(w) <= buf
                        && (Legal(c.compress, r.open, w) || Overlong(c.compress, r.open, w)
                            || UnfinishedControl(c.compress, r.open, w))
    ensures TakeFrame(c, buf).Frame? ==>
            exists w :: Encodable(w) && Encode(w) == buf[..TakeFrame(c, buf).used] && TakeFrame(c, buf).fin == w.fin
  {
    if TakeFrame(c, buf).Frame? {
      TakenIsComplete(c, buf);
      SpelledIsThere(buf);
      var w, used := Spelled(buf), TakeFrame(c, buf).used;
      assert buf == Encode(w) + buf[used..];
      AcceptedIffLegal(c, r, w, buf[used..]);
      TakenAsSpelled(c, buf);
    }
    if w :| && Encodable(w) && Encode(w) <= buf
            && (Legal(c.compress, r.open, w) || Overlong(c.compress, r.open, w)
                || UnfinishedControl(c.compress, r.open, w)) {
      assert buf == Encode(w) + buf[|Encode(w)|..];
      AcceptedIffLegal(c, r, w, buf[|Encode(w)|..]);
    }
  }

  lemma TakenAsSpelled(c: Codec, buf: seq<Byte>)
    requires TakeFrame(c, buf).Frame?
    ensures TakeFrame(c, buf).fin == (buf[0] >= 128)
  {
  }

  /** More bytes can still complete the frame at the front. */
  predicate Incomplete(buf: seq<Byte>) {
    |buf| < 2 || (buf[1] >= 128 && (|buf| < 2 + Extra(buf[1] % 128) ||
                                    |buf| < 2 + Extra(buf[1] % 128) + PayloadLength(buf, buf[1] % 128)))
  }

  /** Nothing else is waited for: a frame that is not masked is refused with its second byte, a 64-bit length with
      the top bit set once it is there, and any other complete frame that is not taken is refused or, near the
      overflow, panics. */
  lemma OnlyIncompleteWaits(c: Codec, buf: seq<Byte>)
    ensures TakeFrame(c, buf).More? ==> Incomplete(buf)
    ensures |buf| >= 2 && buf[1] < 128 ==> TakeFrame(c, buf).Faulty?
    ensures |buf| >= 14 && buf[1] == 255 && buf[2] >= 128 ==> TakeFrame(c, buf).Faulty?
  {
    if |buf| >= 14 && buf[1] == 255 { assert buf[1] % 128 == 127; }
  }

  /** After a control frame without FIN every further frame is refused. */
  lemma UnfinishedControlIsRefusedNext(c: Codec, buf: seq<Byte>, more: seq<Byte>)
    requires TakeFrame(c, buf).Frame? && !TakeFrame(c, buf).fin && IsControl(buf[0] % 16) && |more| >= 2
    ensures TakeFrame(TakeFrame(c, buf).c, more).Faulty?
  {
    var d := TakeFrame(c, buf).c;
    assert IsControl(d.curr) && d.curr != NO_OPCODE;
    assert OpeningFault(d, more[0] / 16 % 8, more[0] % 16).Some?;
  }

  /** The codes that section 7.4 of RFC 6455 keeps out of close frames. */
  predicate UnsendableCode(code: int) {
    code < 1000 || code == 1004 || code == 1005 || code == 1006 || code == 1015
  }

  /** Of these the decoder lets only 1015 pass; it refuses four more that are merely unassigned. */
  lemma CloseCodes(code: int)
    ensures UnsendableCode(code) && !ForbiddenCloseCode(code) <==> code == 1015
    ensures ForbiddenCloseCode(code) && !UnsendableCode(code) <==> code in {1016, 1100, 2000, 2999}
  {
  }

  predicate SameTurn(t: Turn, u: RefTurn) {
    match u
    case Halt(events) => t == Stop(events)
    case Go(r, events) => t.Continue? && t.events == events && Represents(t.c, r)
  }

  lemma ControlTook(c: Codec, r: Ref, w: Wire)
    requires Represents(c, r) && Fitting(c.compress, r.open, w) && IsControl(w.op)
    ensures var t := Took(c, w);
            && t.curr == w.op && t.rsv == 0 && Merge(t.currPayload) == w.payload
            && t.closed == c.closed && t.pongs == c.pongs
            && Represents(ResetCurrent(t), r.(open := NextOpen(r.open, w)))
            && Represents(ResetCurrent(t.(pongs := t.pongs + 1)), r.(open := NextOpen(r.open, w), pongs := r.pongs + 1))
  {
    MergeOne(w.payload);
    assert Took(c, w).currPayload == [w.payload];
  }

  function AfterControl(t: Codec, u: RefTurn): Turn {
    match u
    case Halt(events) => Stop(events)
    case Go(r, events) => Continue(ResetCurrent(t.(pongs := r.pongs)), events)
  }

  lemma ControlHandled(env: Env, t: Codec, r: Ref, w: Wire)
    requires Fitting(t.compress, r.open, w) && IsControl(w.op)
    requires t.curr == w.op && t.rsv == 0 && Merge(t.currPayload) == w.payload && t.closed == r.closed
        && t.pongs == r.pongs
    ensures Handle(env, t, true) == AfterControl(t, RefStep(env, true, r, w))
  {
    assert Complete(env, t) == Validate(env, w.op, false, w.payload);
  }

  lemma ControlAgrees(env: Env, c: Codec, r: Ref, w: Wire)
    requires Represents(c, r) && Fitting(c.compress, r.open, w) && IsControl(w.op)
    ensures SameTurn(Handle(env, Took(c, w), w.fin), RefStep(env, true, r, w))
  {
    ControlTook(c, r, w);
    ControlHandled(env, Took(c, w), r, w);
    RefControl(env, r, w);
  }

  lemma RefControl(env: Env, r: Ref, w: Wire)
    requires IsControl(w.op)
    ensures RefStep(env, true, r, w).Go? ==>
              var n := RefStep(env, true, r, w).r;
              n == r.(open := NextOpen(r.open, w)) || n == r.(open := NextOpen(r.open, w), pongs := r.pongs + 1)
  {
  }

  lemma DataTook(c: Codec, r: Ref, w: Wire)
    requires Represents(c, r) && Fitting(c.compress, r.open, w) && !IsControl(w.op)
    ensures Represents(Took(c, w), r.(open := Some(Grow(r.open, w))))
    ensures Represents(ResetCurrent(Took(c, w)), r.(open := None))
  {
    if r.open.None? {
      MergeOne(w.payload);
      assert Took(c, w).currPayload == [w.payload];
    } else {
      MergeMore(c.currPayload, w.payload);
    }
  }

  lemma DataAgrees(env: Env, c: Codec, r: Ref, w: Wire)
    requires Represents(c, r) && Fitting(c.compress, r.open, w) && !IsControl(w.op)
    ensures SameTurn(Handle(env, Took(c, w), w.fin), RefStep(env, true, r, w))
  {
    DataTook(c, r, w);
    var m := Grow(r.open, w);
    assert Complete(env, Took(c, w)) == Validate(env, m.op, m.deflated && !m.interrupted, m.payload);
  }

  predicate SameOutcome(o: Outcome, u: RefTurn, compress: bool) {
    match u
    case Halt(events) => o == Dead(events)
    case Go(r, events) =>
      && o.Alive? && o.rest == [] && o.events == events && o.c.compress == compress
      && Represents(o.c, r)
  }

  lemma CompressFixed(env: Env, c: Codec, w: Wire)
    ensures Handle(env, Took(c, w), w.fin).Continue? ==> Handle(env, Took(c, w), w.fin).c.compress == c.compress
  {
  }

  lemma FrameAgrees(env: Env, c: Codec, r: Ref, w: Wire)
    requires Represents(c, r) && Fitting(c.compress, r.open, w)
    ensures SameTurn(Handle(env, Took(c, w), w.fin), RefStep(env, true, r, w))
    ensures RefStep(env, true, r, w).Go? ==> RefStep(env, true, r, w).r.open == NextOpen(r.open, w)
  {
    if IsControl(w.op) { ControlAgrees(env, c, r, w); } else { DataAgrees(env, c, r, w); }
  }

  function Follow(env: Env, t: Turn, rest: seq<Byte>): Outcome {
    match t
    case Stop(events) => Dead(events)
    case Continue(c, events) => Prepend(events, Drain(env, c, rest))
  }

  lemma DrainOne(env: Env, c: Codec, r: Ref, w: Wire, rest: seq<Byte>)
    requires Represents(c, r) && Fitting(c.compress, r.open, w)
    ensures Drain(env, c, Encode(w) + rest) == Follow(env, Handle(env, Took(c, w), w.fin), rest)
  {
    LegalIsTaken(c, r, w, rest);
  }

  // ---- two failures on the wire ----

  /** A close frame with a code and a valid reason. */
  predicate CloseFrame(env: Env, w: Wire) {
    && Encodable(w) && w.op == CLOSE && w.fin && w.rsv == 0 && 2 <= |w.payload| <= 125
    && (|w.payload| > 2 ==> env.validUtf8(w.payload[2..]))
  }

  function CloseCode(w: Wire): int
    requires |w.payload| >= 2
  {
    BigEndian(w.payload[..2])
  }

  /** Between any two frames such a close frame is delivered and echoed, or refused for its code. */
  lemma CloseFrameExactly(env: Env, c: Codec, r: Ref, w: Wire, rest: seq<Byte>)
    requires Represents(c, r) && CloseFrame(env, w)
    ensures Drain(env, c, Encode(w) + rest) ==
            Dead(if ForbiddenCloseCode(CloseCode(w)) then [Fail(BadCloseCode)]
                 else if c.closed then [Received(CLOSE, w.payload)]
                 else [Received(CLOSE, w.payload), Replied(CLOSE, w.payload, true)])
  {
    DrainOne(env, c, r, w, rest);
    ControlAgrees(env, c, r, w);
  }

  /** A close frame with code 1015 and no reason. */
  const CLOSE_1015: Wire := Wire(true, 0, CLOSE, Seven, [0, 0, 0, 0], [3, 247])

  /** A new connection takes the frame, delivers it and echoes it, although section 7.4.1 keeps the code out of
      close frames. */
  lemma Code1015IsEchoed(env: Env)
    ensures CloseCode(CLOSE_1015) == 1015 && Encodable(CLOSE_1015)
    ensures Drain(env, NewCodec(false, false), Encode(CLOSE_1015)) ==
            Dead([Received(CLOSE, [3, 247]), Replied(CLOSE, [3, 247], true)])
  {
    var w := CLOSE_1015;
    BigEndianOfOne(3);
    assert w.payload[..2][..1] == [3];
    assert Encode(w) + [] == Encode(w);
    CloseFrameExactly(env, NewCodec(false, false), Ref(false, 0, None), w, []);
  }

  /** The header of a frame of a data message with a 64-bit length whose top bit is clear. */
  predicate LongHeader(buf: seq<Byte>) {
    |buf| >= 14 && buf[1] == 255 && buf[2] < 128 && !IsControl(buf[0] % 16)
  }

  /** For any decoder and any bytes: it panics exactly on such a header that passes the checks and whose length is
      at least 2^63-4. */
  lemma PanicsExactly(c: Codec, buf: seq<Byte>)
    ensures TakeFrame(c, buf).Crash? <==>
            && LongHeader(buf)
            && OpeningFault(c, buf[0] / 16 % 8, buf[0] % 16).None?
            && FirstFrameFault(c, buf[0] / 16 % 8, buf[0] % 16).None?
            && BigEndian(buf[2..10]) >= TWO_63 - 4
  {
    if |buf| >= 2 && OpeningFault(c, buf[0] / 16 % 8, buf[0] % 16).None? {
      var fin, rsv, op := buf[0] >= 128, buf[0] / 16 % 8, buf[0] % 16;
      if LongHeader(buf) && FirstFrameFault(c, rsv, op).None? {
        PanicsExactlyNearOverflow(c, fin, rsv, op, buf);
      } else {
        NoPanicElsewhere(SetAside(c, op), fin, rsv, op, buf);
      }
    }
  }

  lemma NoPanicElsewhere(c: Codec, fin: bool, rsv: int, op: int, buf: seq<Byte>)
    requires |buf| >= 2 && op == buf[0] % 16 && !(LongHeader(buf) && FirstFrameFault(c, rsv, op).None?)
    ensures !TakeBody(c, fin, rsv, op, buf).Crash?
  {
    if buf[1] >= 128 && buf[1] % 128 != 127 && |buf| >= 2 + Extra(buf[1] % 128) {
      BigEndianBelow(buf[2..Extra(buf[1] % 128) - 2]);
      assert Capacity(0) == 1 && Capacity(2) == 65536 by { assert Capacity(1) == 256; }
    }
  }

  /** A binary frame that announces 2^63-1 bytes; the fourteen bytes of its header are enough. */
  const HUGE: seq<Byte> := [130, 255, 127, 255, 255, 255, 255, 255, 255, 255, 0, 0, 0, 0]

  /** A new connection panics on it. */
  lemma HugeLengthPanics(env: Env)
    ensures TakeFrame(NewCodec(false, false), HUGE).Crash?
    ensures Drain(env, NewCodec(false, false), HUGE) == Dead([Panicked])
  {
    HugeLength();
    PanicsExactly(NewCodec(false, false), HUGE);
  }

  lemma HugeLength()
    ensures BigEndian(HUGE[2..10]) == TWO_63 - 1
  {
    BigEndianOfMax(7);
    assert Capacity(4) == 0x1_0000_0000 by { assert Capacity(0) == 1 && Capacity(2) == 65536; }
    assert Capacity(8) == TWO_64 by { assert Capacity(6) == 65536 * Capacity(4); }
  }

  lemma BigEndianOfOne(b: Byte)
    ensures BigEndian([b]) == b
  {
    assert [b][..0] == [] && BigEndian([]) == 0;
  }

  lemma {:induction false} BigEndianOfMax(n: nat)
    requires 1 <= n <= 7
    ensures 2 * BigEndian(HUGE[2..3 + n]) == Capacity(n + 1) - 2
  {
    assert Capacity(1) == 256;
    var bytes := HUGE[2..3 + n];
    assert bytes[..n] == HUGE[2..2 + n] && bytes[n] == 255;
    if n == 1 {
      assert HUGE[2..3] == [HUGE[2]];
      BigEndianOfOne(HUGE[2]);
    } else {
      BigEndianOfMax(n - 1);
    }
  }

  /** Every stream of fitting frames decodes to what the reference says, control messages in place. */
  lemma {:induction false} DecodesAsReference(env: Env, c: Codec, r: Ref, ws: seq<Wire>)
    requires Represents(c, r) && FittingStream(c.compress, r.open, ws)
    ensures SameOutcome(Drain(env, c, EncodeAll(ws)), RefRun(env, true, r, ws), c.compress)
    decreases |ws|
  {
    if ws != [] {
      var w := ws[0];
      DrainOne(env, c, r, w, EncodeAll(ws[1..]));
      FrameAgrees(env, c, r, w);
      CompressFixed(env, c, w);
      var t := Handle(env, Took(c, w), w.fin);
      if t.Continue? { DecodesAsReference(env, t.c, RefStep(env, true, r, w).r, ws[1..]); }
    }
  }
}
