/** How the bytes are cut into arrivals makes no difference. */
module CodecChunking {
  import opened Octets
  import opened CodecSpec

  lemma BodyAppend(c: Codec, fin: bool, rsv: int, op: int, a: seq<Byte>, b: seq<Byte>)
    requires |a| >= 2
    ensures TakeBody(c, fin, rsv, op, a).More? ==> TakeBody(c, fin, rsv, op, a).c == c
    ensures !TakeBody(c, fin, rsv, op, a).More? ==> TakeBody(c, fin, rsv, op, a + b) == TakeBody(c, fin, rsv, op, a)
  {
    var length7 := a[1] % 128;
    var start := 2 + Extra(length7);
    if |a| >= start {
      assert (a + b)[2..start - 4] == a[2..start - 4];
      assert (a + b)[start - 4..start] == a[start - 4..start];
      if length7 != 127 || a[2] < 128 {
        var length := PayloadLength(a, length7);
        assert PayloadLength(a + b, length7) == length;
        if |a| >= start + length {
          assert (a + b)[start..start + length] == a[start..start + length];
        }
      }
    }
  }

  /** Setting the message aside twice is setting it aside once, and hides nothing from the checks. */
  lemma SetAsideTwice(c: Codec, rsv: int, op: int)
    requires OpeningFault(c, rsv, op).None?
    ensures OpeningFault(SetAside(c, op), rsv, op).None?
    ensures SetAside(SetAside(c, op), op) == SetAside(c, op)
  {
  }

  /** An incomplete frame leaves a state from which more bytes lead to the same place; a complete or
      faulty frame does not look at what follows it. */
  lemma FrameAppend(c: Codec, a: seq<Byte>, b: seq<Byte>)
    ensures TakeFrame(c, a).More? ==> TakeFrame(TakeFrame(c, a).c, a + b) == TakeFrame(c, a + b)
    ensures !TakeFrame(c, a).More? ==> TakeFrame(c, a + b) == TakeFrame(c, a)
  {
    if |a| >= 2 {
      var fin, rsv, op := a[0] >= 128, a[0] / 16 % 8, a[0] % 16;
      if OpeningFault(c, rsv, op).None? {
        SetAsideTwice(c, rsv, op);
        BodyAppend(SetAside(c, op), fin, rsv, op, a, b);
      }
    }
  }

  lemma PrependTwice(x: seq<Event>, y: seq<Event>, o: Outcome)
    ensures Prepend(x, Prepend(y, o)) == Prepend(x + y, o)
  {
    assert x + (y + o.events) == (x + y) + o.events;
  }

  lemma PrependNothing(o: Outcome)
    ensures Prepend([], o) == o
  {
    assert [] + o.events == o.events;
  }

  /** Draining two arrivals one after the other is draining them joined. */
  lemma {:induction false} DrainJoined(env: Env, c: Codec, a: seq<Byte>, b: seq<Byte>)
    ensures Drain(env, c, a + b) == Arrive(env, Drain(env, c, a), b)
    decreases |a|
  {
    FrameAppend(c, a, b);
    FrameUses(c, a);
    match TakeFrame(c, a)
    case More(c') =>
      PrependNothing(Drain(env, c', a + b));
      SameFrameSameDrain(env, c, c', a + b);
    case Faulty(_) =>
    case Crash =>
    case Frame(c', used, fin) =>
      assert (a + b)[used..] == a[used..] + b;
      match Handle(env, c', fin) {
        case Stop(_) =>
        case Continue(c'', events) =>
          DrainJoined(env, c'', a[used..], b);
          var o := Drain(env, c'', a[used..]);
          if o.Alive? { PrependTwice(events, o.events, Drain(env, o.c, o.rest + b)); }
      }
  }

  lemma SameFrameSameDrain(env: Env, c: Codec, d: Codec, buf: seq<Byte>)
    requires TakeFrame(c, buf) == TakeFrame(d, buf)
    ensures Drain(env, c, buf) == Drain(env, d, buf)
  {
  }

  function Concat(chunks: seq<seq<Byte>>): seq<Byte> {
    if chunks == [] then [] else Concat(chunks[..|chunks| - 1]) + chunks[|chunks| - 1]
  }

  /** Any split of a byte stream into arrivals leads to the same events, the same unconsumed bytes and
      the same codec as the whole stream at once. */
  lemma {:induction false} ChunkingIndependent(env: Env, c: Codec, chunks: seq<seq<Byte>>)
    ensures ArriveAll(env, Alive(c, [], []), chunks) == Drain(env, c, Concat(chunks))
  {
    if chunks != [] {
      var n := |chunks| - 1;
      ChunkingIndependent(env, c, chunks[..n]);
      DrainJoined(env, c, Concat(chunks[..n]), chunks[n]);
    }
  }

  /** Two splits of the same bytes cannot be told apart. */
  lemma SplitsAgree(env: Env, c: Codec, x: seq<seq<Byte>>, y: seq<seq<Byte>>)
    requires Concat(x) == Concat(y)
    ensures ArriveAll(env, Alive(c, [], []), x) == ArriveAll(env, Alive(c, [], []), y)
  {
    ChunkingIndependent(env, c, x);
    ChunkingIndependent(env, c, y);
  }
}
