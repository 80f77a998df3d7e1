/** Bytes, and numbers written in them with the most significant byte first. */
module Octets {
  type Byte = x: int | 0 <= x < 256

  function BigEndian(bytes: seq<Byte>): nat {
    if bytes == [] then 0 else 256 * BigEndian(bytes[..|bytes| - 1]) + bytes[|bytes| - 1]
  }

  function ToBigEndian(n: nat, width: nat): (r: seq<Byte>)
    ensures |r| == width
  {
    if width == 0 then [] else ToBigEndian(n / 256, width - 1) + [n % 256]
  }

  function Capacity(width: nat): nat {
    if width == 0 then 1 else 256 * Capacity(width - 1)
  }

  lemma {:induction false} BigEndianRoundTrip(n: nat, width: nat)
    requires n < Capacity(width)
    ensures BigEndian(ToBigEndian(n, width)) == n
  {
    if width > 0 {
      BigEndianRoundTrip(n / 256, width - 1);
      var r := ToBigEndian(n, width);
      assert r[..|r| - 1] == ToBigEndian(n / 256, width - 1);
    }
  }

  lemma {:induction false} ToBigEndianBack(bytes: seq<Byte>)
    ensures ToBigEndian(BigEndian(bytes), |bytes|) == bytes
  {
    if bytes != [] {
      var front, last := bytes[..|bytes| - 1], bytes[|bytes| - 1];
      ToBigEndianBack(front);
      assert (256 * BigEndian(front) + last) / 256 == BigEndian(front);
      assert bytes == front + [last];
    }
  }

  lemma {:induction false} BigEndianBelow(bytes: seq<Byte>)
    ensures BigEndian(bytes) < Capacity(|bytes|)
  {
    if bytes != [] { BigEndianBelow(bytes[..|bytes| - 1]); }
  }
}
