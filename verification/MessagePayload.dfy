/** The fragment store of a message and the byte pool it draws from, with real buffers: what a callback
    receives must never be handed out again by the pool. */
module MessagePayloads {
  import opened Octets
  import opened CodecSpec

  /** A Go slice that starts at its buffer's first byte. */
  datatype Slice = Slice(buf: array<Byte>, len: nat)

  /** The shared pool: `Get` may return any large enough buffer that was put back, with whatever is in it. */
  class BytePool {
    var free: set<array<Byte>>

    constructor ()
      ensures free == {}
    {
      free := {};
    }

    method Get(n: nat) returns (s: Slice)
      modifies this
      ensures s.len == n <= s.buf.Length
      ensures fresh(s.buf) || s.buf in old(free)
      ensures free == old(free) - {s.buf}
    {
      if n == 0 {
        var b := new Byte[0];
        s := Slice(b, 0);
        assert b !in free;
      } else if b :| b in free && b.Length >= n {
        free := free - {b};
        s := Slice(b, n);
      } else {
        var b := new Byte[n];
        s := Slice(b, n);
        assert b !in free;
      }
    }

    method Put(s: Slice)
      modifies this
      ensures free == old(free) + if s.buf.Length > 0 then {s.buf} else {}
    {
      if s.buf.Length > 0 {
        free := free + {s.buf};
      }
    }
  }

  class MessagePayload {
    var fragments: seq<Slice>

    constructor ()
      ensures fragments == []
    {
      fragments := [];
    }

    ghost function Buffers(): set<array<Byte>>
      reads this
    {
      set i | 0 <= i < |fragments| :: fragments[i].buf
    }

    /** The buffers that `Reset` gives back to the pool. */
    ghost function Pooled(): set<array<Byte>>
      reads this
    {
      set i | 1 <= i < |fragments| && fragments[i].buf.Length > 0 :: fragments[i].buf
    }

    ghost predicate Valid()
      reads this
    {
      && (forall i :: 0 <= i < |fragments| ==> fragments[i].len <= fragments[i].buf.Length)
      && (forall i, j :: 0 <= i < j < |fragments| ==> fragments[i].buf != fragments[j].buf)
    }

    /** The unmasked fragments. */
    ghost function Contents(): (c: seq<seq<Byte>>)
      requires Valid()
      reads this, Buffers()
      ensures |c| == |fragments|
      ensures forall i :: 0 <= i < |c| ==> c[i] == fragments[i].buf[..fragments[i].len]
    {
      seq(|fragments|, i requires 0 <= i < |fragments| && Valid() reads this, Buffers() =>
        assert fragments[i].buf in Buffers(); fragments[i].buf[..fragments[i].len])
    }

    /** Stores one unmasked fragment: the first in a buffer of its own, the others in pooled ones. */
    method Append(fragment: seq<Byte>, mask: seq<Byte>, pool: BytePool)
      requires Valid() && Buffers() !! pool.free && |mask| == 4
      modifies this, pool, pool.free
      ensures Valid() && Buffers() !! pool.free
      ensures Contents() == old(Contents()) + [Cipher(fragment, mask)]
      ensures pool.free <= old(pool.free)
      ensures |fragments| == |old(fragments)| + 1 && fragments[..|old(fragments)|] == old(fragments)
      ensures var b := fragments[|old(fragments)|].buf;
              (fresh(b) || b in old(pool.free)) && Buffers() == old(Buffers()) + {b}
    {
      var tmp: Slice;
      if |fragments| == 0 {
        var b := new Byte[|fragment|];
        tmp := Slice(b, |fragment|);
      } else {
        tmp := pool.Get(|fragment|);
      }
      CopyInto(tmp.buf, 0, fragment);
      CipherInPlace(tmp, mask);
      Push(tmp);
    }

    method Push(s: Slice)
      requires Valid() && s.buf !in Buffers() && s.len <= s.buf.Length
      modifies this
      ensures Valid() && fragments == old(fragments) + [s]
      ensures Buffers() == old(Buffers()) + {s.buf}
      ensures Contents() == old(Contents()) + [s.buf[..s.len]]
    {
      fragments := fragments + [s];
      assert fragments[|fragments| - 1].buf == s.buf;
      assert forall i :: 0 <= i < |old(fragments)| ==> fragments[i] == old(fragments)[i];
    }

    method TotalLength() returns (total: nat)
      requires Valid()
      ensures total == |CodecSpec.Merge(Contents())|
    {
      total := 0;
      var i := 0;
      while i < |fragments|
        invariant i <= |fragments|
        invariant total == |CodecSpec.Merge(Contents()[..i])|
      {
        MergeTake(Contents(), i);
        total := total + fragments[i].len;
        i := i + 1;
      }
      assert Contents()[..i] == Contents();
    }

    /** The whole message: the only fragment itself, or a new buffer that joins all of them. */
    method Merge() returns (s: Slice)
      requires Valid() && fragments != []
      ensures s.len <= s.buf.Length && s.buf[..s.len] == CodecSpec.Merge(Contents())
      ensures if |fragments| == 1 then s == fragments[0] else fresh(s.buf)
    {
      if |fragments| == 1 {
        s := fragments[0];
        MergeSingle(Contents());
      } else {
        ghost var whole := Contents();
        var total := TotalLength();
        assert Contents() == whole;
        var ret := Join(whole, total);
        s := Slice(ret, ret.Length);
        assert Contents() == whole && ret[..ret.Length] == ret[..];
      }
    }

    method Join(ghost whole: seq<seq<Byte>>, total: nat) returns (ret: array<Byte>)
      requires forall j :: 0 <= j < |fragments| ==> fragments[j].len <= fragments[j].buf.Length
      requires |whole| == |fragments| && total == |CodecSpec.Merge(whole)|
      requires forall j :: 0 <= j < |fragments| ==> fragments[j].buf[..fragments[j].len] == whole[j]
      ensures fresh(ret) && ret[..] == CodecSpec.Merge(whole)
    {
      ret := new Byte[total];
      var offset := 0;
      var i := 0;
      while i < |fragments|
        invariant i <= |fragments|
        invariant forall j :: 0 <= j < |fragments| ==> fragments[j].buf[..fragments[j].len] == whole[j]
        invariant offset == |CodecSpec.Merge(whole[..i])| <= total
        invariant ret[..offset] == CodecSpec.Merge(whole[..i])
      {
        MergeTake(whole, i);
        MergePrefix(whole, i + 1);
        var frag := fragments[i];
        CopyInto(ret, offset, frag.buf[..frag.len]);
        offset := offset + frag.len;
        i := i + 1;
      }
      assert whole[..i] == whole;
    }

    /** Forgets the fragments and gives every buffer but the first back to the pool. */
    method Reset(pool: BytePool)
      requires Valid()
      modifies this, pool
      ensures fragments == [] && Valid()
      ensures pool.free == old(pool.free) + old(Pooled())
    {
      var i := 0;
      ghost var given: set<array<Byte>> := {};
      while i < |fragments|
        invariant i <= |fragments| && fragments == old(fragments)
        invariant given == set j | 1 <= j < i && fragments[j].buf.Length > 0 :: fragments[j].buf
        invariant pool.free == old(pool.free) + given
      {
        if i > 0 {
          pool.Put(fragments[i]);
          given := given + if fragments[i].buf.Length > 0 then {fragments[i].buf} else {};
        }
        i := i + 1;
      }
      fragments := [];
    }
  }

  /** `copy(dst[offset:], bytes)`. */
  method CopyInto(dst: array<Byte>, offset: nat, bytes: seq<Byte>)
    requires offset + |bytes| <= dst.Length
    modifies dst
    ensures dst[..offset] == old(dst[..offset])
    ensures dst[offset..offset + |bytes|] == bytes
    ensures dst[..offset + |bytes|] == old(dst[..offset]) + bytes
  {
    forall i | 0 <= i < |bytes| {
      dst[offset + i] := bytes[i];
    }
  }

  /** `ws.Cipher` on a slice. */
  method CipherInPlace(s: Slice, mask: seq<Byte>)
    requires s.len <= s.buf.Length && |mask| == 4
    modifies s.buf
    ensures s.buf[..s.len] == Cipher(old(s.buf[..s.len]), mask)
  {
    ghost var before := s.buf[..s.len];
    var i := 0;
    while i < s.len
      invariant i <= s.len
      invariant forall k :: 0 <= k < i ==> s.buf[k] == XorByte(before[k], mask[k % 4])
      invariant forall k :: i <= k < s.len ==> s.buf[k] == before[k]
    {
      s.buf[i] := XorByte(s.buf[i], mask[i % 4]);
      i := i + 1;
    }
  }

  lemma MergeTake(f: seq<seq<Byte>>, i: nat)
    requires i < |f|
    ensures CodecSpec.Merge(f[..i + 1]) == CodecSpec.Merge(f[..i]) + f[i]
  {
    assert f[..i + 1][..i] == f[..i];
  }

  lemma MergeSingle(f: seq<seq<Byte>>)
    requires |f| == 1
    ensures CodecSpec.Merge(f) == f[0]
  {
    assert f[..0] == [] && CodecSpec.Merge([]) == [];
  }

  lemma {:induction false} MergePrefix(f: seq<seq<Byte>>, i: nat)
    requires i <= |f|
    ensures |CodecSpec.Merge(f[..i])| <= |CodecSpec.Merge(f)|
    decreases |f| - i
  {
    if i < |f| {
      MergeTake(f, i);
      MergePrefix(f, i + 1);
    } else {
      assert f[..i] == f;
    }
  }
}
