/** What holds of the codec, and of the bytes it has not consumed, whenever `OnTraffic` returns. */
module CodecInvariant {
  import opened Options
  import opened Octets
  import opened CodecSpec

  predicate DataOpcode(op: int) {
    op == TEXT || op == BINARY
  }

  predicate ControlOpcode(op: int) {
    op == CLOSE || op == PING || op == PONG
  }

  /** A control frame is at the front of the unconsumed bytes. */
  predicate ControlWaiting(rest: seq<Byte>) {
    |rest| >= 2 && ControlOpcode(rest[0] % 16)
  }

  /** The save slot holds a data message or nothing, and is in use only around a control frame: one
      that was received, or one whose first bytes are still waiting to be completed. */
  predicate Inv(c: Codec, rest: seq<Byte>) {
    && (c.pre == NO_OPCODE || DataOpcode(c.pre))
    && (c.curr == NO_OPCODE || DataOpcode(c.curr) || ControlOpcode(c.curr))
    && (c.pre != NO_OPCODE ==> ControlOpcode(c.curr) || (c.curr == NO_OPCODE && ControlWaiting(rest)))
    && (c.pre == NO_OPCODE <==> c.prePayload == [])
    && (c.curr == NO_OPCODE <==> c.currPayload == [])
    && (ControlOpcode(c.curr) ==> |c.currPayload| == 1)
  }

  /** Without the waiting bytes the invariant would not be inductive: here a data frame would end up
      beside a saved data message. */
  lemma WaitingBytesMatter()
    ensures var c := NewCodec(false, false).(pre := TEXT, prePayload := [[]]);
            var buf := [129, 128, 0, 0, 0, 0];
            && TakeFrame(c, buf).Frame?
            && TakeFrame(c, buf).c.pre == TEXT && TakeFrame(c, buf).c.curr == TEXT
            && !Inv(c, buf) && Inv(c, [137, 128])
  {
    var c := NewCodec(false, false).(pre := TEXT, prePayload := [[]]);
    var buf: seq<Byte> := [129, 128, 0, 0, 0, 0];
    assert OpeningFault(c, 0, TEXT).None? && SetAside(c, TEXT) == c;
    assert TakeFrame(c, buf) == TakeBody(c, true, 0, TEXT, buf);
    assert PayloadLength(buf, 0) == 0;
  }

  lemma TakeFrameKeeps(c: Codec, buf: seq<Byte>)
    requires Inv(c, buf)
    ensures TakeFrame(c, buf).More? ==> Inv(TakeFrame(c, buf).c, buf)
    ensures TakeFrame(c, buf).Frame? ==> Inv(TakeFrame(c, buf).c, []) && TakeFrame(c, buf).c.curr != NO_OPCODE
  {
  }

  lemma ResetKeeps(c: Codec, pongs: nat, rest: seq<Byte>)
    requires Inv(c, []) && c.curr != NO_OPCODE
    ensures Inv(c, rest) && Inv(ResetCurrent(c.(pongs := pongs)), rest)
  {
  }

  /** Going on means waiting for the next fragment, or being back behind the message. */
  lemma HandleGoesOn(env: Env, c: Codec, fin: bool)
    requires Handle(env, c, fin).Continue?
    ensures var next := Handle(env, c, fin).c;
            next == c || next == ResetCurrent(c) || next == ResetCurrent(c.(pongs := c.pongs + 1))
  {
  }

  lemma HandleKeeps(env: Env, c: Codec, fin: bool, rest: seq<Byte>)
    requires Inv(c, []) && c.curr != NO_OPCODE
    ensures Handle(env, c, fin).Continue? ==> Inv(Handle(env, c, fin).c, rest)
  {
    if Handle(env, c, fin).Continue? {
      HandleGoesOn(env, c, fin);
      ResetKeeps(c, c.pongs, rest);
      ResetKeeps(c, c.pongs + 1, rest);
      assert c.(pongs := c.pongs) == c;
    }
  }

  /** Every arrival keeps the invariant. */
  lemma {:induction false} DrainKeeps(env: Env, c: Codec, buf: seq<Byte>)
    requires Inv(c, buf)
    ensures Drain(env, c, buf).Alive? ==> Inv(Drain(env, c, buf).c, Drain(env, c, buf).rest)
    decreases |buf|
  {
    TakeFrameKeeps(c, buf);
    FrameUses(c, buf);
    match TakeFrame(c, buf)
    case Frame(c', used, fin) =>
      HandleKeeps(env, c', fin, buf[used..]);
      match Handle(env, c', fin) {
        case Continue(c'', _) => DrainKeeps(env, c'', buf[used..]);
        case Stop(_) =>
      }
    case _ =>
  }

  /** The invariant holds after any arrivals on a new connection. */
  lemma {:induction false} InvAlways(env: Env, compress: bool, closed: bool, chunks: seq<seq<Byte>>)
    ensures var o := ArriveAll(env, Alive(NewCodec(compress, closed), [], []), chunks);
            o.Alive? ==> Inv(o.c, o.rest)
  {
    if chunks != [] {
      var n := |chunks| - 1;
      InvAlways(env, compress, closed, chunks[..n]);
      var o := ArriveAll(env, Alive(NewCodec(compress, closed), [], []), chunks[..n]);
      if o.Alive? { DrainKeeps(env, o.c, o.rest + chunks[n]); }
    }
  }

  /** The save slot is empty whenever a message is about to be moved into it. */
  lemma SaveSlotNeverOverwritten(c: Codec, buf: seq<Byte>)
    requires Inv(c, buf) && |buf| >= 2
    requires OpeningFault(c, buf[0] / 16 % 8, buf[0] % 16).None? && SetAside(c, buf[0] % 16) != c
    ensures c.pre == NO_OPCODE && c.prePayload == []
    ensures SetAside(c, buf[0] % 16).pre == c.curr && SetAside(c, buf[0] % 16).prePayload == c.currPayload
  {
  }

  /** A message handed to the dispatch has an opcode that is not reserved, and a control message
      consists of exactly the frame just taken. */
  lemma DispatchedOpcode(c: Codec, buf: seq<Byte>)
    requires Inv(c, buf) && TakeFrame(c, buf).Frame?
    ensures var d := TakeFrame(c, buf).c;
            && (DataOpcode(d.curr) || ControlOpcode(d.curr))
            && (ControlOpcode(d.curr) ==> |d.currPayload| == 1 && |d.currPayload[0]| <= 125 && d.curr == buf[0] % 16)
  {
  }

  // ---- over whole runs ----

  /** The decoder and its bytes after `n` frames of an arrival, if it gets that far. */
  function AfterFrames(env: Env, c: Codec, buf: seq<Byte>, n: nat): Option<(Codec, seq<Byte>)>
    decreases n
  {
    if n == 0 then Some((c, buf))
    else
      FrameUses(c, buf);
      match TakeFrame(c, buf)
      case Frame(c', used, fin) =>
        (match Handle(env, c', fin)
         case Continue(c'', _) => AfterFrames(env, c'', buf[used..], n - 1)
         case Stop(_) => None)
      case _ => None
  }

  lemma {:induction false} FramesKeep(env: Env, c: Codec, buf: seq<Byte>, n: nat)
    requires Inv(c, buf) && AfterFrames(env, c, buf, n).Some?
    ensures var s := AfterFrames(env, c, buf, n).value; Inv(s.0, s.1)
    decreases n
  {
    if n > 0 {
      TakeFrameKeeps(c, buf);
      FrameUses(c, buf);
      var t := TakeFrame(c, buf);
      HandleKeeps(env, t.c, t.fin, buf[t.used..]);
      FramesKeep(env, Handle(env, t.c, t.fin).c, buf[t.used..], n - 1);
    }
  }

  /** In every run, at every frame of every arrival, the save slot is empty when a message is moved into it. */
  lemma SaveSlotInEveryRun(env: Env, compress: bool, closed: bool, chunks: seq<seq<Byte>>, chunk: seq<Byte>, n: nat)
    requires ArriveAll(env, Alive(NewCodec(compress, closed), [], []), chunks).Alive?
    ensures var o := ArriveAll(env, Alive(NewCodec(compress, closed), [], []), chunks);
            match AfterFrames(env, o.c, o.rest + chunk, n)
            case None => true
            case Some((c, buf)) =>
              |buf| >= 2 && OpeningFault(c, buf[0] / 16 % 8, buf[0] % 16).None? && SetAside(c, buf[0] % 16) != c ==>
                c.pre == NO_OPCODE && c.prePayload == []
  {
    InvAlways(env, compress, closed, chunks);
    var o := ArriveAll(env, Alive(NewCodec(compress, closed), [], []), chunks);
    if AfterFrames(env, o.c, o.rest + chunk, n).Some? {
      FramesKeep(env, o.c, o.rest + chunk, n);
      var (c, buf) := AfterFrames(env, o.c, o.rest + chunk, n).value;
      if |buf| >= 2 && OpeningFault(c, buf[0] / 16 % 8, buf[0] % 16).None? && SetAside(c, buf[0] % 16) != c {
        SaveSlotNeverOverwritten(c, buf);
      }
    }
  }

  /** A delivered message is a text, a binary, or a control message that fits one frame. */
  predicate Proper(e: Event) {
    e.Received? ==> DataOpcode(e.op) || (ControlOpcode(e.op) && |e.payload| <= 125)
  }

  predicate AllProper(events: seq<Event>) {
    forall i :: 0 <= i < |events| ==> Proper(events[i])
  }

  lemma DispatchProper(env: Env, d: Codec, payload: seq<Byte>)
    requires DataOpcode(d.curr) || (ControlOpcode(d.curr) && |payload| <= 125)
    ensures AllProper(Dispatch(env, d, payload).events)
  {
  }

  /** A control message is not changed by its checks. */
  lemma ControlComplete(env: Env, d: Codec)
    requires ControlOpcode(d.curr) && |d.currPayload| == 1
    ensures Complete(env, d).Payload? ==> Complete(env, d).bytes == d.currPayload[0]
  {
    assert d.currPayload[..0] == [] && Merge([]) == [];
    assert Merge(d.currPayload) == [] + d.currPayload[0];
  }

  lemma HandleProper(env: Env, c: Codec, buf: seq<Byte>)
    requires Inv(c, buf) && TakeFrame(c, buf).Frame?
    ensures AllProper(Handle(env, TakeFrame(c, buf).c, TakeFrame(c, buf).fin).events)
  {
    DispatchedOpcode(c, buf);
    FinishedProper(env, TakeFrame(c, buf).c, TakeFrame(c, buf).fin);
  }

  lemma FinishedProper(env: Env, d: Codec, fin: bool)
    requires DataOpcode(d.curr) || (ControlOpcode(d.curr) && |d.currPayload| == 1 && |d.currPayload[0]| <= 125)
    ensures AllProper(Handle(env, d, fin).events)
  {
    if ControlOpcode(d.curr) { ControlComplete(env, d); }
    if fin && Complete(env, d).Payload? {
      DispatchProper(env, d, Complete(env, d).bytes);
    }
  }

  lemma {:induction false} DrainProper(env: Env, c: Codec, buf: seq<Byte>)
    requires Inv(c, buf)
    ensures AllProper(Drain(env, c, buf).events)
    decreases |buf|
  {
    var t := TakeFrame(c, buf);
    if t.Frame? {
      var h := FrameOfDrain(env, c, buf);
      if h.Continue? { DrainProper(env, h.c, buf[t.used..]); }
    }
  }

  /** One frame of an arrival: what it shows, and the invariant behind it. */
  lemma FrameOfDrain(env: Env, c: Codec, buf: seq<Byte>) returns (h: Turn)
    requires Inv(c, buf) && TakeFrame(c, buf).Frame?
    ensures var used := TakeFrame(c, buf).used;
            && 0 < used <= |buf| && AllProper(h.events)
            && (h.Continue? ==> Inv(h.c, buf[used..]))
            && Drain(env, c, buf) == if h.Stop? then Dead(h.events) else Prepend(h.events, Drain(env, h.c, buf[used..]))
  {
    FrameUses(c, buf);
    var t := TakeFrame(c, buf);
    h := Handle(env, t.c, t.fin);
    HandleProper(env, c, buf);
    TakeFrameKeeps(c, buf);
    HandleKeeps(env, t.c, t.fin, buf[t.used..]);
  }

  /** In every run no message with a reserved opcode and no control message above 125 bytes is delivered: the
      branch of `OnTraffic` for reserved opcodes is never taken. */
  lemma {:induction false} DeliveredAreProper(env: Env, compress: bool, closed: bool, chunks: seq<seq<Byte>>)
    ensures AllProper(ArriveAll(env, Alive(NewCodec(compress, closed), [], []), chunks).events)
  {
    if chunks != [] {
      var n := |chunks| - 1;
      DeliveredAreProper(env, compress, closed, chunks[..n]);
      InvAlways(env, compress, closed, chunks[..n]);
      var o := ArriveAll(env, Alive(NewCodec(compress, closed), [], []), chunks[..n]);
      if o.Alive? { DrainProper(env, o.c, o.rest + chunks[n]); }
    }
  }
}
