/** Whole messages: any fragmentation, any interleaved pings and pongs, any arrival pattern; and the one
    case in which the decoder departs from RFC 7692. */
module CodecMessages {
  import opened Options
  import opened Octets
  import opened CodecSpec
  import opened CodecInvariant
  import opened CodecChunking
  import opened CodecRoundTrip

  /** A frame that may stand between the first and the last fragment of a message. */
  predicate Between(w: Wire) {
    && Encodable(w)
    && w.rsv == 0
    && if IsControl(w.op) then (w.op == PING || w.op == PONG) && w.fin && |w.payload| <= 125
       else w.op == CONTINUATION && !w.fin
  }

  predicate AllBetween(ws: seq<Wire>) {
    forall i :: 0 <= i < |ws| ==> Between(ws[i])
  }

  function ControlEvents(ws: seq<Wire>): seq<Event> {
    if ws == [] then []
    else if ws[0].op == PING then [Received(PING, ws[0].payload), Replied(PONG, ws[0].payload, true)]
        + ControlEvents(ws[1..])
    else if ws[0].op == PONG then [Received(PONG, ws[0].payload)] + ControlEvents(ws[1..])
    else ControlEvents(ws[1..])
  }

  /** The payload bytes the continuations carry. */
  function DataOf(ws: seq<Wire>): seq<Byte> {
    if ws == [] then []
    else (if IsControl(ws[0].op) then [] else ws[0].payload) + DataOf(ws[1..])
  }

  predicate HasControl(ws: seq<Wire>) {
    exists i :: 0 <= i < |ws| && IsControl(ws[i].op)
  }

  function Pings(ws: seq<Wire>): nat {
    if ws == [] then 0 else (if ws[0].op == PING then 1 else 0) + Pings(ws[1..])
  }

  ghost predicate PongsGoOut(env: Env) {
    forall n :: env.pongWritten(n)
  }

  lemma HasControlStep(ws: seq<Wire>)
    requires ws != []
    ensures HasControl(ws) == (IsControl(ws[0].op) || HasControl(ws[1..]))
  {
    if HasControl(ws[1..]) {
      var i :| 0 <= i < |ws[1..]| && IsControl(ws[1..][i].op);
      assert IsControl(ws[i + 1].op);
    }
    if i :| 0 <= i < |ws| && IsControl(ws[i].op) {
      if i > 0 { assert IsControl(ws[1..][i - 1].op); }
    }
  }

  lemma AllBetweenStep(ws: seq<Wire>)
    requires AllBetween(ws) && ws != []
    ensures Between(ws[0]) && AllBetween(ws[1..])
  {
    forall i | 0 <= i < |ws[1..]| ensures Between(ws[1..][i]) { assert Between(ws[i + 1]); }
  }

  /** The reference after the frames: the data appended, the pings answered. */
  function Passed(r: Ref, ws: seq<Wire>): Ref
    requires r.open.Some?
  {
    var m := r.open.value;
    r.(pongs := r.pongs + Pings(ws),
       open := Some(m.(payload := m.payload + DataOf(ws), interrupted := m.interrupted || HasControl(ws))))
  }

  function PassedOne(r: Ref, w: Wire): Ref
    requires r.open.Some?
  {
    var m := r.open.value;
    r.(pongs := if w.op == PING then r.pongs + 1 else r.pongs,
       open := Some(if IsControl(w.op) then m.(interrupted := true) else m.(payload := m.payload + w.payload)))
  }

  lemma BetweenStep(env: Env, forgetful: bool, r: Ref, w: Wire)
    requires r.open.Some? && Between(w) && PongsGoOut(env)
    ensures RefStep(env, forgetful, r, w) ==
              Go(PassedOne(r, w),
                 if w.op == PING then [Received(PING, w.payload), Replied(PONG, w.payload, true)]
                 else if w.op == PONG then [Received(PONG, w.payload)]
                 else [])
  {
  }

  lemma PassedStep(r: Ref, ws: seq<Wire>)
    requires r.open.Some? && ws != [] && AllBetween(ws)
    ensures Passed(PassedOne(r, ws[0]), ws[1..]) == Passed(r, ws)
  {
    var m, rest := r.open.value, DataOf(ws[1..]);
    AllBetweenStep(ws);
    HasControlStep(ws);
    if IsControl(ws[0].op) {
      assert [] + rest == rest;
    } else {
      assert m.payload + ws[0].payload + rest == m.payload + (ws[0].payload + rest);
    }
  }

  lemma {:induction false} BetweenRun(env: Env, forgetful: bool, r: Ref, ws: seq<Wire>)
    requires r.open.Some? && AllBetween(ws) && PongsGoOut(env)
    ensures RefRun(env, forgetful, r, ws) == Go(Passed(r, ws), ControlEvents(ws))
    decreases |ws|
  {
    if ws == [] {
      assert r.open.value.payload + [] == r.open.value.payload;
    } else {
      AllBetweenStep(ws);
      BetweenStep(env, forgetful, r, ws[0]);
      BetweenRun(env, forgetful, PassedOne(r, ws[0]), ws[1..]);
      PassedStep(r, ws);
    }
  }

  lemma ThenTwice(x: seq<Event>, y: seq<Event>, u: RefTurn)
    ensures Then(x, Then(y, u)) == Then(x + y, u)
  {
    assert x + (y + u.events) == (x + y) + u.events;
  }

  lemma RunStep(env: Env, forgetful: bool, r: Ref, w: Wire, ws: seq<Wire>)
    ensures RefRun(env, forgetful, r, [w] + ws) ==
            if RefStep(env, forgetful, r, w).Halt? then RefStep(env, forgetful, r, w)
            else Then(RefStep(env, forgetful, r, w).events, RefRun(env, forgetful, RefStep(env, forgetful, r, w).r, ws))
  {
    assert ([w] + ws)[1..] == ws;
  }

  lemma {:induction false} RunJoined(env: Env, forgetful: bool, r: Ref, a: seq<Wire>, b: seq<Wire>)
    requires RefRun(env, forgetful, r, a).Go?
    ensures RefRun(env, forgetful, r, a + b)
        == Then(RefRun(env, forgetful, r, a).events, RefRun(env, forgetful, RefRun(env, forgetful, r, a).r, b))
    decreases |a|, 0
  {
    if a == [] {
      assert a + b == b;
      var u := RefRun(env, forgetful, r, b);
      assert [] + u.events == u.events;
    } else {
      var w, rest := a[0], a[1..];
      assert a == [w] + rest && a + b == [w] + (rest + b);
      RunStep(env, forgetful, r, w, rest);
      RunStep(env, forgetful, r, w, rest + b);
      JoinRest(env, forgetful, RefStep(env, forgetful, r, w), rest, b);
    }
  }

  lemma {:induction false} JoinRest(env: Env, forgetful: bool, t: RefTurn, rest: seq<Wire>, b: seq<Wire>)
    requires t.Go? && RefRun(env, forgetful, t.r, rest).Go?
    ensures var u := RefRun(env, forgetful, t.r, rest);
            Then(t.events, RefRun(env, forgetful, t.r, rest + b)) ==
              Then(t.events + u.events, RefRun(env, forgetful, u.r, b))
    decreases |rest|, 1
  {
    RunJoined(env, forgetful, t.r, rest, b);
    var u := RefRun(env, forgetful, t.r, rest);
    ThenTwice(t.events, u.events, RefRun(env, forgetful, u.r, b));
  }

  /** A fragmented message: a first data frame, anything allowed in between, a last continuation. */
  predicate Fragmented(compress: bool, first: Wire, middle: seq<Wire>, last: Wire) {
    && Encodable(first) && DataOpcode(first.op) && !first.fin && (first.rsv == 0 || (first.rsv == 4 && compress))
    && AllBetween(middle)
    && Encodable(last) && last.op == CONTINUATION && last.fin && last.rsv == 0
  }

  function Whole(first: Wire, middle: seq<Wire>, last: Wire): seq<Byte> {
    first.payload + DataOf(middle) + last.payload
  }

  function Finished(env: Env, op: int, deflated: bool, raw: seq<Byte>): Event {
    match Validate(env, op, deflated, raw)
    case Payload(bytes) => Received(op, bytes)
    case Invalid(fault) => Fail(fault)
  }

  lemma ReferenceMessage(env: Env, forgetful: bool, r: Ref, compress: bool, first: Wire, middle: seq<Wire>, last: Wire)
    requires r.open.None? && Fragmented(compress, first, middle, last) && PongsGoOut(env)
    ensures RefRun(env, forgetful, r, [first] + middle + [last]).events ==
            ControlEvents(middle) + [Finished(env, first.op, first.rsv == 4
                && !(forgetful && HasControl(middle)), Whole(first, middle, last))]
  {
    var m := OpenMessage(first.op, first.payload, first.rsv == 4, false);
    FirstFragment(env, forgetful, r, first, middle + [last]);
    RestOfMessage(env, forgetful, r.(open := Some(m)), middle, last);
    assert [first] + middle + [last] == [first] + (middle + [last]);
  }

  /** The frames that follow the first fragment finish the message. */
  lemma RestOfMessage(env: Env, forgetful: bool, r: Ref, middle: seq<Wire>, last: Wire)
    requires r.open.Some? && AllBetween(middle) && last.op == CONTINUATION && last.fin && PongsGoOut(env)
    ensures var m := r.open.value;
            RefRun(env, forgetful, r, middle + [last]).events ==
              ControlEvents(middle)
              + [Finished(env, m.op, m.deflated && !(forgetful && (m.interrupted || HasControl(middle))),
                          m.payload + DataOf(middle) + last.payload)]
  {
    BetweenRun(env, forgetful, r, middle);
    RunJoined(env, forgetful, r, middle, [last]);
    RunLast(env, forgetful, Passed(r, middle), last);
  }

  /** The first fragment opens the message and shows nothing. */
  lemma FirstFragment(env: Env, forgetful: bool, r: Ref, first: Wire, rest: seq<Wire>)
    requires r.open.None? && !first.fin && !IsControl(first.op)
    ensures var r1 := r.(open := Some(OpenMessage(first.op, first.payload, first.rsv == 4, false)));
            RefRun(env, forgetful, r, [first] + rest).events == RefRun(env, forgetful, r1, rest).events
  {
    var r1 := r.(open := Some(OpenMessage(first.op, first.payload, first.rsv == 4, false)));
    assert RefStep(env, forgetful, r, first) == Go(r1, []);
    RunStep(env, forgetful, r, first, rest);
    assert [] + RefRun(env, forgetful, r1, rest).events == RefRun(env, forgetful, r1, rest).events;
  }

  lemma RunLast(env: Env, forgetful: bool, r: Ref, last: Wire)
    requires r.open.Some? && last.op == CONTINUATION && last.fin
    ensures var m := r.open.value;
            RefRun(env, forgetful, r, [last]).events ==
              [Finished(env, m.op, m.deflated && !(forgetful && m.interrupted), m.payload + last.payload)]
  {
    var t := RefStep(env, forgetful, r, last);
    if t.Go? { assert RefRun(env, forgetful, t.r, []) == Go(t.r, []); }
  }

  lemma {:induction false} BetweenFits(compress: bool, open: Option<OpenMessage>, middle: seq<Wire>, last: Wire)
    requires open.Some? && AllBetween(middle)
    requires Encodable(last) && last.op == CONTINUATION && last.fin && last.rsv == 0
    ensures FittingStream(compress, open, middle + [last])
    decreases |middle|
  {
    if middle == [] {
      assert middle + [last] == [last];
    } else {
      assert Between(middle[0]);
      assert (middle + [last])[1..] == middle[1..] + [last];
      assert AllBetween(middle[1..]) by {
        forall i | 0 <= i < |middle[1..]| ensures Between(middle[1..][i]) { assert Between(middle[i + 1]); }
      }
      BetweenFits(compress, NextOpen(open, middle[0]), middle[1..], last);
    }
  }

  // ---- a message in one frame or in many ----

  datatype Message = Single(first: Wire) | Split(first: Wire, middle: seq<Wire>, last: Wire)
  {
    /** The frames between the first and the last. */
    function Inner(): seq<Wire> {
      if Single? then [] else middle
    }

    function Raw(): seq<Byte> {
      if Single? then first.payload else Whole(first, middle, last)
    }
  }

  predicate Sendable(compress: bool, m: Message) {
    match m
    case Single(first) =>
      Encodable(first) && DataOpcode(first.op) && first.fin && (first.rsv == 0 || (first.rsv == 4 && compress))
    case Split(first, middle, last) => Fragmented(compress, first, middle, last)
  }

  /** The message on the wire. */
  function Frames(compress: bool, m: Message): (ws: seq<Wire>)
    requires Sendable(compress, m)
    ensures forall i :: 0 <= i < |ws| ==> Encodable(ws[i])
  {
    match m
    case Single(first) => [first]
    case Split(first, middle, last) =>
      assert forall i :: 0 <= i < |middle| ==> Between(middle[i]);
      [first] + middle + [last]
  }

  lemma FramesFit(compress: bool, m: Message)
    requires Sendable(compress, m)
    ensures FittingStream(compress, None, Frames(compress, m))
  {
    match m
    case Single(first) =>
      assert FittingStream(compress, None, []) && [first][1..] == [];
    case Split(first, middle, last) =>
      assert ([first] + middle + [last])[1..] == middle + [last];
      BetweenFits(compress, NextOpen(None, first), middle, last);
  }

  lemma ReferenceFrames(env: Env, forgetful: bool, r: Ref, compress: bool, m: Message)
    requires r.open.None? && Sendable(compress, m) && PongsGoOut(env)
    ensures RefRun(env, forgetful, r, Frames(compress, m)).events ==
            ControlEvents(m.Inner())
            + [Finished(env, m.first.op, m.first.rsv == 4 && !(forgetful && HasControl(m.Inner())), m.Raw())]
  {
    match m
    case Single(first) =>
      var t := RefStep(env, forgetful, r, first);
      assert [first][1..] == [];
      if t.Go? { assert RefRun(env, forgetful, t.r, []) == Go(t.r, []); }
    case Split(first, middle, last) =>
      ReferenceMessage(env, forgetful, r, compress, first, middle, last);
  }

  function Events(o: Outcome): seq<Event> {
    o.events
  }

  predicate NoMessageOpen(c: Codec) {
    c.pre == NO_OPCODE && c.prePayload == [] && c.curr == NO_OPCODE && c.currPayload == []
  }

  /** What the decoder delivers for a message, whatever the arrivals: the control messages where they stand,
      then the message, inflated only if no control frame came in between. */
  lemma DecodedMessage(env: Env, c: Codec, m: Message, chunks: seq<seq<Byte>>)
    requires NoMessageOpen(c) && Sendable(c.compress, m) && PongsGoOut(env)
    requires Concat(chunks) == EncodeAll(Frames(c.compress, m))
    ensures Events(ArriveAll(env, Alive(c, [], []), chunks)) ==
            ControlEvents(m.Inner())
            + [Finished(env, m.first.op, m.first.rsv == 4 && !HasControl(m.Inner()), m.Raw())]
  {
    var r := Ref(c.closed, c.pongs, None);
    FramesFit(c.compress, m);
    DecodesAsReference(env, c, r, Frames(c.compress, m));
    ReferenceFrames(env, true, r, c.compress, m);
    ChunkingIndependent(env, c, chunks);
  }

  /** An uncompressed binary or valid text message, in one frame or in any fragments, comes out as it went in. */
  lemma MessageRoundTrip(env: Env, c: Codec, m: Message, chunks: seq<seq<Byte>>)
    requires NoMessageOpen(c) && Sendable(c.compress, m) && m.first.rsv == 0 && PongsGoOut(env)
    requires Concat(chunks) == EncodeAll(Frames(c.compress, m))
    requires m.first.op == TEXT ==> env.validUtf8(m.Raw())
    ensures Events(ArriveAll(env, Alive(c, [], []), chunks)) ==
            ControlEvents(m.Inner()) + [Received(m.first.op, m.Raw())]
  {
    DecodedMessage(env, c, m, chunks);
  }

  /** A deflated message is delivered as RFC 7692 asks if and only if no control frame stands between its
      fragments (unless inflating changes nothing): the RSV bits are kept in a single field, which the
      control frame overwrites. */
  lemma DeflatedMessageExact(env: Env, c: Codec, m: Message, chunks: seq<seq<Byte>>)
    requires NoMessageOpen(c) && Sendable(c.compress, m) && m.first.rsv == 4 && PongsGoOut(env)
    requires Concat(chunks) == EncodeAll(Frames(c.compress, m))
    requires env.inflate(m.Raw()).Some? && env.inflate(m.Raw()).value != m.Raw()
    requires m.first.op == TEXT ==> env.validUtf8(env.inflate(m.Raw()).value)
    ensures Events(ArriveAll(env, Alive(c, [], []), chunks)) ==
              ControlEvents(m.Inner()) + [Received(m.first.op, env.inflate(m.Raw()).value)]
            <==> !HasControl(m.Inner())
  {
    DecodedMessage(env, c, m, chunks);
    var before := ControlEvents(m.Inner());
    var a := Finished(env, m.first.op, !HasControl(m.Inner()), m.Raw());
    var b := Received(m.first.op, env.inflate(m.Raw()).value);
    assert (before + [a])[|before|] == a && (before + [b])[|before|] == b;
  }

  // ---- whole streams ----

  /** No deflated message ends after an interruption. */
  predicate NoInterruptedDeflate(open: Option<OpenMessage>, ws: seq<Wire>)
    decreases |ws|
  {
    ws != [] ==>
      && !(!IsControl(ws[0].op) && ws[0].fin && Grow(open, ws[0]).deflated && Grow(open, ws[0]).interrupted)
      && NoInterruptedDeflate(NextOpen(open, ws[0]), ws[1..])
  }

  /** Outside that case the decoder's reference is the one the RFCs describe. */
  lemma {:induction false} ForgetfulOnlyWhenInterrupted(env: Env, r: Ref, ws: seq<Wire>)
    requires NoInterruptedDeflate(r.open, ws)
    ensures RefRun(env, true, r, ws) == RefRun(env, false, r, ws)
    decreases |ws|
  {
    if ws != [] {
      assert RefStep(env, true, r, ws[0]) == RefStep(env, false, r, ws[0]);
      if RefStep(env, true, r, ws[0]).Go? {
        var r' := RefStep(env, true, r, ws[0]).r;
        assert r'.open == NextOpen(r.open, ws[0]);
        ForgetfulOnlyWhenInterrupted(env, r', ws[1..]);
      }
    }
  }

  /** Any stream of fitting frames without an interrupted deflated message, in any arrivals, on a new connection:
      the events are those of the RFC reference. */
  lemma StreamAsSpecified(env: Env, compress: bool, closed: bool, ws: seq<Wire>, chunks: seq<seq<Byte>>)
    requires FittingStream(compress, None, ws) && NoInterruptedDeflate(None, ws)
    requires Concat(chunks) == EncodeAll(ws)
    ensures Events(ArriveAll(env, Alive(NewCodec(compress, closed), [], []), chunks)) ==
            RefRun(env, false, Ref(closed, 0, None), ws).events
  {
    var c := NewCodec(compress, closed);
    ChunkingIndependent(env, c, chunks);
    DecodesAsReference(env, c, Ref(closed, 0, None), ws);
    ForgetfulOnlyWhenInterrupted(env, Ref(closed, 0, None), ws);
  }
}
