/** The codec as the object it is: fields and pooled buffers that `decode` and `OnTraffic` change in place. */
module Connections {
  import opened Options
  import opened Octets
  import opened CodecSpec
  import opened CodecRoundTrip
  import opened CodecChunking
  import opened MessagePayloads

  datatype FrameRead = Incomplete | FrameFault(fault: Fault) | FramePanic | FrameTaken(fin: bool)

  datatype Step = Await | CloseConn | Again

  datatype Decoded = NeedMore | Refused(fault: Fault) | Panic | Message(payload: Slice)

  /** What the frames up to the next final one leave behind. */
  datatype Collected =
    | Waiting(c: Codec, rest: seq<Byte>)
    | Rejected(fault: Fault)
    | Crashed
    | Final(c: Codec, rest: seq<Byte>)

  function Collect(c: Codec, buf: seq<Byte>): Collected
    decreases |buf|
  {
    FrameUses(c, buf);
    match TakeFrame(c, buf)
    case More(c') => Waiting(c', buf)
    case Faulty(fault) => Rejected(fault)
    case Crash => Crashed
    case Frame(c', used, fin) => if fin then Final(c', buf[used..]) else Collect(c', buf[used..])
  }

  /** One frame of the collection. */
  lemma CollectStep(c: Codec, buf: seq<Byte>)
    ensures match TakeFrame(c, buf)
            case More(c') => Collect(c, buf) == Waiting(c', buf)
            case Faulty(fault) => Collect(c, buf) == Rejected(fault)
            case Crash => Collect(c, buf) == Crashed
            case Frame(c', used, fin) =>
              && 6 <= used <= |buf| && c'.currPayload != []
              && Collect(c, buf) == if fin then Final(c', buf[used..]) else Collect(c', buf[used..])
  {
    FrameUses(c, buf);
  }

  function AfterCollect(env: Env, k: Collected): Outcome {
    match k
    case Waiting(c, rest) => Alive(c, rest, [])
    case Rejected(fault) => Dead([Fail(fault)])
    case Crashed => Dead([Panicked])
    case Final(c, rest) => Follow(env, Handle(env, c, true), rest)
  }

  lemma {:induction false} CollectShrinks(c: Codec, buf: seq<Byte>)
    ensures Collect(c, buf).Final? ==> |Collect(c, buf).rest| < |buf|
    decreases |buf|
  {
    FrameUses(c, buf);
    var t := TakeFrame(c, buf);
    if t.Frame? && !t.fin { CollectShrinks(t.c, buf[t.used..]); }
  }

  /** One call of `decode` and its dispatch is the first part of `Drain`. */
  lemma {:induction false} DrainByMessages(env: Env, c: Codec, buf: seq<Byte>)
    ensures Drain(env, c, buf) == AfterCollect(env, Collect(c, buf))
    decreases |buf|
  {
    FrameUses(c, buf);
    match TakeFrame(c, buf)
    case Frame(c', used, fin) =>
      if !fin {
        DrainByMessages(env, c', buf[used..]);
        PrependNothing(Drain(env, c', buf[used..]));
      }
    case _ =>
  }

  ghost predicate ChecksAs(d: Decoded, r: Result)
    reads if d.Message? then {d.payload.buf} else {}
  {
    match r
    case Invalid(fault) => d == Refused(fault)
    case Payload(bytes) =>
      && d.Message? && d.payload.len <= d.payload.buf.Length
      && d.payload.buf[..d.payload.len] == bytes
  }

  /** What one pass of the loop of `OnTraffic` says about the outcome of the arrival. */
  ghost predicate Leads(env: Env, c: Codec, buf: seq<Byte>, step: Step, seen: seq<Event>, c': Codec, rest: seq<Byte>) {
    Drain(env, c, buf) ==
      match step
      case Await => Alive(c', rest, seen)
      case CloseConn => Dead(seen)
      case Again => Prepend(seen, Drain(env, c', rest))
  }

  /** A failure sets the closed flag, and so does a close message; a panic and a broken pong do not. */
  predicate SetsFlag(e: Event) {
    e.Failed? || (e.Received? && e.op == CLOSE)
  }

  predicate Flagging(seen: seq<Event>) {
    exists i :: 0 <= i < |seen| && SetsFlag(seen[i])
  }

  lemma FlaggingJoined(a: seq<Event>, b: seq<Event>)
    ensures Flagging(a + b) == (Flagging(a) || Flagging(b))
  {
    if i :| 0 <= i < |a| && SetsFlag(a[i]) { assert (a + b)[i] == a[i]; }
    if j :| 0 <= j < |b| && SetsFlag(b[j]) { assert (a + b)[|a| + j] == b[j]; }
  }

  lemma DispatchFlags(env: Env, c: Codec, payload: seq<Byte>)
    ensures Flagging(Dispatch(env, c, payload).events) == (c.curr == CLOSE)
  {
    assert SetsFlag(Dispatch(env, c, payload).events[0]) == (c.curr == CLOSE);
  }

  lemma LeadsOn(env: Env, c0: Codec, buf0: seq<Byte>, all: seq<Event>, c: Codec, buf: seq<Byte>, step: Step,
      seen: seq<Event>, c': Codec, rest: seq<Byte>)
    requires Leads(env, c0, buf0, Again, all, c, buf)
    requires Leads(env, c, buf, step, seen, c', rest)
    ensures Leads(env, c0, buf0, step, all + seen, c', rest)
    ensures step == Again && rest == [] ==> Leads(env, c0, buf0, Await, all + seen, c', rest)
  {
    PrependTwice(all, seen, Drain(env, c', rest));
    if rest == [] { assert all + seen + [] == all + seen; }
  }

  /** The outcome of reading a header: the frame occupies `start + length` bytes when it is complete. */
  datatype Measured = Short | Bad(fault: Fault) | Overflow | Ready(start: nat, length: nat)

  ghost function FromMeasure(m: Measured, c: Codec, fin: bool, headRsv: int, op: int, buf: seq<Byte>): Taken
    requires m.Ready? ==> 4 <= m.start && m.start + m.length <= |buf|
  {
    match m
    case Short => More(c)
    case Bad(fault) => Faulty(fault)
    case Overflow => Crash
    case Ready(start, length) =>
      var r := Remember(c, headRsv, op);
      Frame(r.(currPayload := r.currPayload + [Cipher(buf[start..start + length], buf[start - 4..start])]),
            start + length, fin)
  }

  class Connection {
    const compress: bool
    const env: Env
    const pool: BytePool
    var closed: bool
    var pongs: nat
    var pre: int
    var curr: int
    var rsv: int
    var prePayload: MessagePayload?
    var currPayload: MessagePayload
    /** The bytes gnet holds for the connection. */
    var inbound: seq<Byte>
    /** What the callbacks and the peer have seen. */
    var events: seq<Event>
    /** The buffers that callbacks received; they may read them at any later time. */
    ghost var delivered: set<array<Byte>>
    /** Everything the connection may still change. */
    ghost var Repr: set<object>
    /** Between two arrivals: what is the connection's alone, and neither the pool's nor another connection's. */
    ghost var Own: set<object>

    ghost predicate Valid()
      reads this, Repr
    {
      && {this, pool, currPayload} <= Repr
      && pool.free <= Repr
      && currPayload.Buffers() <= Repr
      && (forall b :: b in delivered ==> b !in Repr)
      && currPayload.Valid()
      && currPayload.Buffers() !! pool.free
      && (pre == NO_OPCODE <==> prePayload == null)
      && (prePayload != null ==>
            && prePayload in Repr
            && prePayload.Buffers() <= Repr
            && prePayload != currPayload
            && prePayload.Valid()
            && prePayload.Buffers() !! pool.free
            && prePayload.Buffers() !! currPayload.Buffers())
    }

    ghost function Abstract(): Codec
      requires Valid()
      reads this, Repr
    {
      Codec(compress, closed, pongs, pre, if prePayload == null then [] else prePayload.Contents(),
            curr, currPayload.Contents(), rsv)
    }

    constructor (compress: bool, env: Env, pool: BytePool)
      ensures Valid() && Abstract() == NewCodec(compress, false)
      ensures this.pool == pool && this.env == env && inbound == [] && events == [] && delivered == {}
      ensures fresh(Repr - {pool} - pool.free)
      ensures Idle() && Now() == NewCodec(compress, false) && fresh(Own)
    {
      this.compress, this.env, this.pool := compress, env, pool;
      closed, pongs, rsv := false, 0, 0;
      pre, curr := NO_OPCODE, NO_OPCODE;
      prePayload := null;
      var payload := new MessagePayload();
      currPayload := payload;
      inbound, events, delivered := [], [], {};
      Repr := {this, pool, payload} + pool.free;
      Own := {this, payload};
    }

    /** `resetCurrMessage`. */
    method ResetCurrMessage()
      requires Valid()
      modifies this, pool, currPayload
      ensures Valid() && Abstract() == ResetCurrent(old(Abstract()))
      ensures closed == old(closed) && inbound == old(inbound) && Repr == old(Repr)
      ensures events == old(events) && delivered == old(delivered)
      ensures pool.free == old(pool.free) + old(currPayload.Pooled())
      ensures currPayload.Buffers() == if old(prePayload) == null then {} else old(prePayload.Buffers())
      ensures prePayload == null
    {
      currPayload.Reset(pool);
      if pre == NO_OPCODE {
        curr := NO_OPCODE;
        rsv := 0;
      } else {
        curr := pre;
        currPayload := prePayload;
        pre := NO_OPCODE;
        prePayload := null;
      }
    }

    /** A control frame arrives between two fragments: the half-received message is set aside. */
    method SaveCurrent()
      requires Valid() && curr != NO_OPCODE
      modifies this
      ensures Valid() && fresh(Repr - old(Repr))
      ensures Abstract() == old(Abstract()).(pre := old(curr), prePayload := old(Abstract()).currPayload,
          curr := NO_OPCODE, currPayload := [])
      ensures inbound == old(inbound)
      ensures closed == old(closed) && events == old(events) && delivered == old(delivered)
    {
      var payload := new MessagePayload();
      SwapIn(payload);
    }

    /** The current message moves to the save slot, and an empty one takes its place. */
    method SwapIn(payload: MessagePayload)
      requires Valid() && curr != NO_OPCODE && payload.fragments == [] && payload !in Repr
      modifies this`pre, this`prePayload, this`curr, this`currPayload, this`Repr
      ensures Valid() && Repr == old(Repr) + {payload}
      ensures Abstract() == old(Abstract()).(pre := old(curr), prePayload := old(Abstract()).currPayload,
          curr := NO_OPCODE, currPayload := [])
    {
      assert payload.Buffers() == {} && payload.Contents() == [] && payload.Valid();
      pre, prePayload := curr, currPayload;
      curr, currPayload := NO_OPCODE, payload;
      Repr := Repr + {payload};
    }

    /** The first frame of a message fixes the opcode and the RSV bits. */
    method RememberFirst(rsv: int, op: int)
      requires Valid()
      modifies this`rsv, this`curr
      ensures Valid() && Abstract() == Remember(old(Abstract()), rsv, op)
    {
      if curr == NO_OPCODE {
        this.rsv := rsv;
        curr := op;
      }
    }

    /** Appends a fragment to the current message and consumes its bytes; everything else stays. */
    method AppendCurrent(mask: seq<Byte>, payload: seq<Byte>, used: nat)
      requires Valid() && |mask| == 4 && used <= |inbound|
      modifies this`Repr, this`inbound, pool, currPayload, pool.free
      ensures Valid() && fresh(Repr - old(Repr)) && inbound == old(inbound)[used..]
      ensures Abstract() == old(Abstract()).(currPayload := old(Abstract()).currPayload + [Cipher(payload, mask)])
    {
      assert prePayload != null ==> prePayload.Contents() == prePayload.Contents();
      currPayload.Append(payload, mask, pool);
      Repr, inbound := Repr + {currPayload.fragments[|currPayload.fragments| - 1].buf}, inbound[used..];
      assert prePayload != null ==> prePayload.Buffers() == old(prePayload.Buffers());
      assert prePayload != null ==> prePayload.Contents() == old(prePayload.Contents());
    }

    /** `decode` once a whole frame is there: remember a first frame, store the fragment, consume the bytes. */
    method StoreFragment(rsv: int, op: int, mask: seq<Byte>, payload: seq<Byte>, used: nat)
      requires Valid() && |mask| == 4 && used <= |inbound|
      modifies this, pool, currPayload, pool.free
      ensures Valid() && fresh(Repr - old(Repr))
      ensures var r := Remember(old(Abstract()), rsv, op);
              Abstract() == r.(currPayload := r.currPayload + [Cipher(payload, mask)])
      ensures inbound == old(inbound)[used..]
      ensures closed == old(closed) && events == old(events) && delivered == old(delivered)
    {
      RememberFirst(rsv, op);
      AppendCurrent(mask, payload, used);
    }

    /** The fields and the unconsumed bytes are what `t` says, and so is the result. */
    ghost predicate Tells(t: Taken, r: FrameRead, before: seq<Byte>)
      requires Valid()
      reads this, Repr
    {
      match t
      case More(c) => r == Incomplete && Abstract() == c && inbound == before
      case Faulty(fault) => r == FrameFault(fault)
      case Crash => r == FramePanic
      case Frame(c, used, fin) =>
        && used <= |before| && r == FrameTaken(fin) && Abstract() == c
        && inbound == before[used..]
    }

    method ReadLength(length7: int) returns (length: nat)
      requires 0 <= length7 < 128 && |inbound| >= 2 + Extra(length7)
      ensures length == PayloadLength(inbound, length7)
    {
      if length7 == 126 {
        length := BigEndian(inbound[2..4]);
      } else if length7 == 127 {
        length := BigEndian(inbound[2..10]);
      } else {
        length := length7;
      }
    }

    /** Where the payload of the frame at the front lies, or why it cannot be taken. */
    method Measure(ghost c: Codec, fin: bool, headRsv: int, op: int) returns (m: Measured)
      requires |inbound| >= 2 && 0 <= op < 16 && c.curr == curr && c.compress == compress
      ensures m.Ready? ==> 4 <= m.start && m.start + m.length <= |inbound|
      ensures TakeBody(c, fin, headRsv, op, inbound) == FromMeasure(m, c, fin, headRsv, op, inbound)
    {
      if inbound[1] < 128 { return Bad(NotMasked); }
      var length7 := inbound[1] % 128;
      var extra;
      if length7 < 126 { extra := 4; } else if length7 == 126 { extra := 6; } else { extra := 12; }
      if |inbound| < 2 + extra { return Short; }
      if length7 == 127 && inbound[2] >= 128 { return Bad(LengthTopBit); }
      var length := ReadLength(length7);
      if IsControl(op) && length > 125 { return Bad(ControlTooLong); }
      if |inbound| - (2 + extra) + 4 < Int64(length + 4) { return Short; }
      if curr == NO_OPCODE {
        if compress && headRsv != 4 && headRsv != 0 { return Bad(BadFirstRsv); }
        if op == CONTINUATION { return Bad(NothingToContinue); }
      }
      if Int64(length + 4) != length + 4 { return Overflow; }
      return Ready(2 + extra, length);
    }

    /** Stores the fragment of a complete frame and consumes its bytes. */
    method TakeReady(start: nat, length: nat, fin: bool, headRsv: int, op: int) returns (r: FrameRead)
      requires Valid() && 4 <= start && start + length <= |inbound|
      modifies this, pool, currPayload, pool.free
      ensures Valid() && fresh(Repr - old(Repr))
      ensures closed == old(closed) && events == old(events) && delivered == old(delivered)
      ensures r == FrameTaken(fin) && inbound == old(inbound)[start + length..]
      ensures FromMeasure(Ready(start, length), old(Abstract()), fin, headRsv, op, old(inbound))
           == Frame(Abstract(), start + length, fin)
    {
      StoreFragment(headRsv, op, inbound[start - 4..start], inbound[start..start + length], start + length);
      return FrameTaken(fin);
    }

    /** Acts on a measured frame: wait, refuse, or take it. */
    method TakeMeasured(m: Measured, fin: bool, headRsv: int, op: int) returns (r: FrameRead)
      requires Valid() && (m.Ready? ==> 4 <= m.start && m.start + m.length <= |inbound|)
      modifies this, pool, currPayload, pool.free
      ensures Valid() && fresh(Repr - old(Repr))
      ensures closed == old(closed) && events == old(events) && delivered == old(delivered)
      ensures Tells(FromMeasure(m, old(Abstract()), fin, headRsv, op, old(inbound)), r, old(inbound))
    {
      match m
      case Short => return Incomplete;
      case Bad(fault) => return FrameFault(fault);
      case Overflow => return FramePanic;
      case Ready(start, length) => r := TakeReady(start, length, fin, headRsv, op);
    }

    /** The checks on the first byte, against the message in progress. */
    method CheckOpening(headRsv: int, op: int) returns (fault: Option<Fault>)
      requires Valid()
      ensures fault == OpeningFault(Abstract(), headRsv, op)
    {
      if !(op == CONTINUATION || op == TEXT || op == BINARY || op == CLOSE || op == PING || op == PONG) {
        return Some(UnsupportedOpcode);
      }
      if headRsv != 0 {
        if !compress { return Some(RsvWithoutExtension); }
        if IsControl(op) { return Some(RsvOnControl); }
      }
      if curr != NO_OPCODE {
        if IsControl(curr) { return Some(ControlFragmented); }
        if !IsControl(op) {
          if op != CONTINUATION { return Some(NotContinuation); }
          if compress && headRsv != 0 { return Some(RsvOnContinuation); }
        }
      }
      return None;
    }

    /** Sets the current message aside for a control frame. */
    method MakeWay(op: int)
      requires Valid()
      modifies this
      ensures Valid() && fresh(Repr - old(Repr))
      ensures Abstract() == SetAside(old(Abstract()), op) && inbound == old(inbound)
      ensures closed == old(closed) && events == old(events) && delivered == old(delivered)
    {
      if curr != NO_OPCODE && IsControl(op) { SaveCurrent(); }
    }

    /** A frame that passed the opening checks. */
    method TakeAccepted(fin: bool, headRsv: int, op: int) returns (r: FrameRead)
      requires Valid() && |inbound| >= 2 && 0 <= op < 16
      modifies Repr
      ensures Valid() && fresh(Repr - old(Repr))
      ensures closed == old(closed) && events == old(events) && delivered == old(delivered)
      ensures Tells(TakeBody(SetAside(old(Abstract()), op), fin, headRsv, op, old(inbound)), r, old(inbound))
    {
      MakeWay(op);
      var m := Measure(Abstract(), fin, headRsv, op);
      r := TakeMeasured(m, fin, headRsv, op);
    }

    /** One turn of the loop of `decode`. */
    method ReadFrame() returns (r: FrameRead)
      requires Valid()
      modifies Repr
      ensures Valid() && fresh(Repr - old(Repr))
      ensures closed == old(closed) && events == old(events) && delivered == old(delivered)
      ensures Tells(TakeFrame(old(Abstract()), old(inbound)), r, old(inbound))
    {
      if |inbound| < 2 { return Incomplete; }
      var fin, headRsv, op := inbound[0] >= 128, inbound[0] / 16 % 8, inbound[0] % 16;
      var fault := CheckOpening(headRsv, op);
      if fault.Some? { return FrameFault(fault.value); }
      r := TakeAccepted(fin, headRsv, op);
    }
 
    /** `d` is the validated message of the current payload. */
    ghost predicate Validated(d: Decoded)
      requires Valid()
      reads this, Repr, if d.Message? then {d.payload.buf} else {}
    {
      ChecksAs(d, Complete(env, Abstract()))
    }

    /** Nothing that the pool hands out, now or after the reset, shares the buffer of the message. */
    ghost predicate Exclusive(s: Slice)
      requires Valid()
      reads this, Repr
    {
      && s.buf !in pool.free
      && s.buf !in delivered
      && s.buf !in currPayload.Pooled()
      && (prePayload != null ==> s.buf !in prePayload.Buffers())
    }

    /** Undo deflate, check UTF-8 or the close code. */
    method Check(op: int, deflated: bool, s: Slice) returns (d: Decoded)
      requires s.len <= s.buf.Length
      ensures ChecksAs(d, Validate(env, op, deflated, s.buf[..s.len]))
      ensures d.Message? ==> d.payload == s || fresh(d.payload.buf)
    {
      var out, raw := s, s.buf[..s.len];
      if op == TEXT || op == BINARY {
        if deflated {
          var plain := env.inflate(raw);
          if plain.None? { return Refused(BadDeflate); }
          raw := plain.value;
          out := NewSlice(raw);
        }
        if op == TEXT && !env.validUtf8(raw) { return Refused(BadUtf8); }
      } else if op == CLOSE && s.len > 0 {
        if s.len == 1 || s.len > 125 { return Refused(BadCloseLength); }
        if ForbiddenCloseCode(BigEndian(raw[..2])) { return Refused(BadCloseCode); }
        if s.len > 2 && !env.validUtf8(raw[2..]) { return Refused(BadUtf8); }
      }
      return Message(out);
    }

    /** `decode` after a final frame: merge and check. */
    method CheckMessage() returns (d: Decoded)
      requires Valid() && currPayload.fragments != []
      ensures Valid() && Abstract() == old(Abstract())
      ensures Validated(d)
      ensures d.Message? ==> Exclusive(d.payload) && (d.payload.buf in Repr || fresh(d.payload.buf))
    {
      var s := currPayload.Merge();
      assert s.buf in currPayload.Buffers() || fresh(s.buf);
      assert Exclusive(s);
      d := Check(curr, compress && rsv == 4, s);
    }

    /** The result and the state are what collecting frames leads to. */
    ghost predicate Collects(k: Collected, r: FrameRead)
      requires Valid()
      reads this, Repr
    {
      match k
      case Waiting(c, rest) => r == Incomplete && Abstract() == c && inbound == rest
      case Rejected(fault) => r == FrameFault(fault)
      case Crashed => r == FramePanic
      case Final(c, rest) => r == FrameTaken(true) && Abstract() == c && inbound == rest && c.currPayload != []
    }

    /** Frames up to a final one. */
    method CollectFrames() returns (r: FrameRead)
      requires Valid()
      modifies Repr
      ensures Valid() && fresh(Repr - old(Repr))
      ensures closed == old(closed) && events == old(events) && delivered == old(delivered)
      ensures Collects(Collect(old(Abstract()), old(inbound)), r)
    {
      ghost var k := Collect(Abstract(), inbound);
      while true
        invariant Valid() && fresh(Repr - old(Repr))
        invariant closed == old(closed) && events == old(events) && delivered == old(delivered)
        invariant Collect(Abstract(), inbound) == k
        decreases |inbound|
      {
        ghost var c, buf := Abstract(), inbound;
        r := ReadFrame();
        CollectStep(c, buf);
        if r != FrameTaken(false) { return; }
      }
    }

    /** Frames up to a final one, and the check of the message they make up. */
    method Decode() returns (d: Decoded)
      requires Valid()
      modifies Repr
      ensures Valid() && fresh(Repr - old(Repr))
      ensures closed == old(closed) && events == old(events) && delivered == old(delivered)
      ensures match Collect(old(Abstract()), old(inbound))
              case Waiting(c, rest) => d == NeedMore && Abstract() == c && inbound == rest
              case Rejected(fault) => d == Refused(fault)
              case Crashed => d == Panic
              case Final(c, rest) => Abstract() == c && inbound == rest && Validated(d)
      ensures d.Message? ==> Exclusive(d.payload) && (d.payload.buf in old(Repr) || fresh(d.payload.buf))
    {
      var r := CollectFrames();
      match r
      case Incomplete => return NeedMore;
      case FrameFault(fault) => return Refused(fault);
      case FramePanic => return Panic;
      case FrameTaken(_) => d := CheckMessage();
    }

    /** The callbacks keep the buffers `kept`, which from now on nobody here touches. */
    method HandOver(seen: seq<Event>, answered: nat, ghost kept: set<array<Byte>>)
      requires Valid() && kept !! pool.free && kept !! currPayload.Buffers()
      requires prePayload == null
      modifies this`pongs, this`events, this`delivered, this`Repr
      ensures Valid() && Abstract() == old(Abstract()).(pongs := old(pongs) + answered)
      ensures events == old(events) + seen && delivered == old(delivered) + kept && Repr <= old(Repr)
    {
      pongs, events := pongs + answered, events + seen;
      delivered, Repr := delivered + kept, Repr - kept;
    }

    /** Back to no message, or the one set aside. */
    method Finish(seen: seq<Event>, answered: nat, ghost kept: set<array<Byte>>)
      requires Valid() && forall b :: b in kept ==> Exclusive(Slice(b, 0))
      modifies this, pool, currPayload
      ensures Valid() && Abstract() == ResetCurrent(old(Abstract()).(pongs := old(pongs) + answered))
      ensures closed == old(closed) && inbound == old(inbound)
      ensures events == old(events) + seen && delivered == old(delivered) + kept && Repr <= old(Repr)
    {
      ResetCurrMessage();
      HandOver(seen, answered, kept);
    }

    /** The connection is given up; nothing but the record of events and perhaps the closed flag changes. */
    method GiveUp(seen: seq<Event>, flag: bool)
      modifies this`closed, this`events
      ensures closed == (old(closed) || flag) && events == old(events) + seen
    {
      closed, events := closed || flag, events + seen;
    }

    /** The connection is failed, or the decoder panics. */
    method Fails(e: Event)
      requires e.Failed? || e.Panicked?
      modifies this`closed, this`events
      ensures closed == (old(closed) || Flagging([e])) && events == old(events) + [e]
    {
      assert SetsFlag([e][0]) == e.Failed?;
      GiveUp([e], e.Failed?);
    }

    /** Hands a message to its callback or answers it; true when the connection is to be closed. */
    method Handle(payload: Slice) returns (close: bool)
      requires Valid() && Exclusive(payload) && payload.len <= payload.buf.Length
      modifies this, pool, currPayload
      ensures Valid() && inbound == old(inbound)
      ensures Repr <= old(Repr) && closed == (old(closed) || old(curr) == CLOSE)
      ensures old(delivered) <= delivered <= old(delivered) + {payload.buf}
      ensures !close && !IsControl(old(curr)) ==> payload.buf in delivered
      ensures match Dispatch(env, old(Abstract()), old(payload.buf[..payload.len]))
              case Stop(e) => close && events == old(events) + e
              case Continue(c, e) => !close && events == old(events) + e && Abstract() == c
    {
      var op, bytes := curr, payload.buf[..payload.len];
      var seen := [Received(op, bytes)];
      var answered := 0;
      close := false;
      if op == CLOSE {
        if !closed { seen := seen + [Replied(CLOSE, bytes, true)]; }
        close := true;
      } else if op == PING {
        var written := env.pongWritten(pongs);
        seen := seen + [Replied(PONG, bytes, written)];
        answered := 1;
        close := !written;
      }
      if close {
        GiveUp(seen, op == CLOSE);
      } else {
        Finish(seen, answered, if IsControl(op) then {} else {payload.buf});
      }
    }

    /** The same, with what was shown. */
    method HandleSeen(payload: Slice) returns (close: bool, ghost seen: seq<Event>)
      requires Valid() && Exclusive(payload) && payload.len <= payload.buf.Length
      modifies this, pool, currPayload
      ensures Valid() && inbound == old(inbound)
      ensures Repr <= old(Repr) && closed == (old(closed) || Flagging(seen))
      ensures old(delivered) <= delivered <= old(delivered) + {payload.buf}
      ensures events == old(events) + seen
      ensures match Dispatch(env, old(Abstract()), old(payload.buf[..payload.len]))
              case Stop(e) => close && seen == e
              case Continue(c, e) => !close && seen == e && Abstract() == c
    {
      seen := Dispatch(env, Abstract(), payload.buf[..payload.len]).events;
      DispatchFlags(env, Abstract(), payload.buf[..payload.len]);
      close := Handle(payload);
    }

    /** One pass through the label `loop` of `OnTraffic`. */
    method Turn() returns (step: Step, ghost seen: seq<Event>)
      requires Valid()
      modifies Repr
      ensures Valid() && fresh(Repr - old(Repr))
      ensures events == old(events) + seen && old(delivered) <= delivered
      ensures closed == (old(closed) || Flagging(seen))
      ensures forall b :: b in delivered - old(delivered) ==> b in old(Repr) || fresh(b)
      ensures step == Again ==> |inbound| < |old(inbound)|
      ensures Leads(env, old(Abstract()), old(inbound), step, seen, Abstract(), inbound)
    {
      DrainByMessages(env, Abstract(), inbound);
      CollectShrinks(Abstract(), inbound);
      var d := Decode();
      match d
      case NeedMore =>
        return Await, [];
      case Refused(fault) =>
        Fails(Fail(fault));
        return CloseConn, [Fail(fault)];
      case Panic =>
        Fails(Panicked);
        return CloseConn, [Panicked];
      case Message(payload) =>
        var close;
        close, seen := HandleSeen(payload);
        step := if close then CloseConn else Again;
    }

    /** Since the state `c0`, `buf0` and the events `e0`, the passes so far led to `step`. */
    ghost predicate Led(c0: Codec, buf0: seq<Byte>, e0: seq<Event>, step: Step)
      requires Valid()
      reads this, Repr
    {
      && |e0| <= |events| && events[..|e0|] == e0
      && Leads(env, c0, buf0, step, events[|e0|..], Abstract(), inbound)
      && closed == (c0.closed || Flagging(events[|e0|..]))
    }

    /** A pass after other passes. */
    method NextTurn(ghost c0: Codec, ghost buf0: seq<Byte>, ghost e0: seq<Event>) returns (step: Step)
      requires Valid() && Led(c0, buf0, e0, Again)
      modifies Repr
      ensures Valid() && fresh(Repr - old(Repr))
      ensures old(delivered) <= delivered && (step == Again ==> |inbound| < |old(inbound)|)
      ensures forall b :: b in delivered - old(delivered) ==> b in old(Repr) || fresh(b)
      ensures Led(c0, buf0, e0, step)
      ensures step == Again && inbound == [] ==> Led(c0, buf0, e0, Await)
    {
      ghost var all, c, buf := events[|e0|..], Abstract(), inbound;
      ghost var seen;
      step, seen := Turn();
      LeadsOn(env, c0, buf0, all, c, buf, step, seen, Abstract(), inbound);
      FlaggingJoined(all, seen);
      assert events[|e0|..] == all + seen;
    }

    /** `OnTraffic` on an upgraded connection: exactly `Drain` over what is buffered. The buffers that
        callbacks received keep their bytes and never return to the pool. */
    method OnTraffic() returns (close: bool)
      requires Valid()
      modifies Repr
      ensures Valid() && fresh(Repr - old(Repr))
      ensures Led(old(Abstract()), old(inbound), old(events), if close then CloseConn else Await)
      ensures old(delivered) <= delivered && delivered !! pool.free
      ensures forall b :: b in delivered - old(delivered) ==> b in old(Repr) || fresh(b)
      ensures forall b :: b in old(delivered) ==> b[..] == old(b[..])
    {
      ghost var c0, buf0, e0 := Abstract(), inbound, events;
      PrependNothing(Drain(env, c0, buf0));
      assert Led(c0, buf0, e0, Again);
      while true
        invariant Valid() && fresh(Repr - old(Repr))
        invariant old(delivered) <= delivered
        invariant forall b :: b in delivered - old(delivered) ==> b in old(Repr) || fresh(b)
        invariant Led(c0, buf0, e0, Again)
        decreases |inbound|
      {
        var step := NextTurn(c0, buf0, e0);
        if step != Again || inbound == [] { return step == CloseConn; }
      }
    }

    // ---- connections that share a pool ----

    /** Nothing the connection owns lies in the pool, and nothing it delivered can be written any more. */
    ghost predicate Idle()
      reads this, Own, pool
    {
      && {this, currPayload} <= Own && pool !in Own
      && (forall b :: b in pool.free ==> b !in Own)
      && (forall b :: b in delivered ==> b !in Own && b !in pool.free)
      && currPayload.Buffers() <= Own && currPayload.Valid()
      && (pre == NO_OPCODE <==> prePayload == null)
      && (prePayload != null ==>
            && prePayload in Own && prePayload.Buffers() <= Own && prePayload.Valid()
            && prePayload != currPayload && prePayload.Buffers() !! currPayload.Buffers())
    }

    ghost function Now(): Codec
      requires Idle()
      reads this, Own, pool
    {
      Codec(compress, closed, pongs, pre, if prePayload == null then [] else prePayload.Contents(),
            curr, currPayload.Contents(), rsv)
    }

    /** What an arrival may touch beside the pool itself. */
    ghost function Reach(): set<object>
      reads this, pool
    {
      Own + pool.free
    }

    /** Takes the shared pool for the time of one call. */
    ghost method Enter()
      requires Idle()
      modifies this`Repr
      ensures Valid() && Abstract() == Now() == old(Now()) && Repr == Own + {pool} + pool.free
    {
      Repr := Own + {pool} + pool.free;
    }

    ghost method Leave()
      requires Valid()
      modifies this`Own
      ensures Idle() && Now() == Abstract() == old(Abstract()) && Own == Repr - {pool} - pool.free
    {
      Own := Repr - {pool} - pool.free;
    }

    /** One arrival on a pool that other connections use too. */
    method Arrival(chunk: seq<Byte>) returns (close: bool)
      requires Idle()
      modifies Own, pool, pool.free
      ensures Idle() && fresh(Reach() - old(Reach()))
      ensures |old(events)| <= |events| && events[..|old(events)|] == old(events)
      ensures Leads(env, old(Now()), old(inbound) + chunk, if close then CloseConn else Await,
                    events[|old(events)|..], Now(), inbound)
      ensures closed == (old(closed) || Flagging(events[|old(events)|..]))
      ensures old(delivered) <= delivered
      ensures forall b :: b in delivered - old(delivered) ==> b in old(Reach()) || fresh(b)
      ensures forall b :: b in old(delivered) ==> b[..] == old(b[..])
    {
      Buffer(chunk);
      close := Serve();
    }

    method Buffer(chunk: seq<Byte>)
      requires Idle()
      modifies this`inbound
      ensures Idle() && Now() == old(Now()) && Reach() == old(Reach()) && inbound == old(inbound) + chunk
    {
      inbound := inbound + chunk;
    }

    /** `OnTraffic` on a shared pool. */
    method Serve() returns (close: bool)
      requires Idle()
      modifies Own, pool, pool.free
      ensures Idle() && fresh(Reach() - old(Reach()))
      ensures |old(events)| <= |events| && events[..|old(events)|] == old(events)
      ensures Leads(env, old(Now()), old(inbound), if close then CloseConn else Await,
                    events[|old(events)|..], Now(), inbound)
      ensures closed == (old(closed) || Flagging(events[|old(events)|..]))
      ensures old(delivered) <= delivered
      ensures forall b :: b in delivered - old(delivered) ==> b in old(Reach()) || fresh(b)
      ensures forall b :: b in old(delivered) ==> b[..] == old(b[..])
    {
      Enter();
      close := OnTraffic();
      Leave();
    }
  }

  /** Two connections on one pool: neither owns or has delivered what the other owns. */
  ghost predicate Apart(a: Connection, b: Connection)
    reads a, b
  {
    && a.pool == b.pool && a.Own !! b.Own
    && (forall x :: x in a.delivered ==> x !in b.Own)
    && (forall x :: x in b.delivered ==> x !in a.Own)
  }

  /** An arrival on one connection leaves every other connection on the same pool as it is: its state, its bytes,
      what it delivered, and its distance. */
  method ArrivalBeside(a: Connection, b: Connection, chunk: seq<Byte>) returns (close: bool)
    requires a.Idle() && b.Idle() && Apart(a, b)
    modifies a.Own, a.pool, a.pool.free
    ensures a.Idle() && b.Idle() && Apart(a, b)
    ensures b.Now() == old(b.Now()) && b.inbound == old(b.inbound) && b.events == old(b.events)
    ensures b.delivered == old(b.delivered) && forall x :: x in b.delivered ==> x[..] == old(x[..])
  {
    close := a.Arrival(chunk);
  }

  method NewSlice(bytes: seq<Byte>) returns (s: Slice)
    ensures fresh(s.buf) && s.len == |bytes| <= s.buf.Length && s.buf[..s.len] == bytes
  {
    var b := new Byte[|bytes|];
    CopyInto(b, 0, bytes);
    s := Slice(b, |bytes|);
  }
}
