/** The index from uniqId to connection, with its separately kept 32-bit counter. */
module ConnectionManager {
  import opened Options
  import opened ShardedIndex

  const TWO_32: nat := 0x1_0000_0000

  lemma MoreEntries(m: map<string, Id>, k: string, v: Id)
    ensures |m[k := v]| == |m| + if k in m then 0 else 1
  {
    var keys := m[k := v].Keys;
    if k in m {
      assert keys == m.Keys;
    } else {
      assert keys == m.Keys + {k};
    }
  }

  lemma CountedUp(n: nat)
    ensures (n % TWO_32 + 1) % TWO_32 == (n + 1) % TWO_32
  {
  }

  lemma FewerEntries(m: map<string, Id>, k: string)
    requires k in m
    ensures |m - {k}| == |m| - 1
    ensures (|m| % TWO_32 + (TWO_32 - 1)) % TWO_32 == (|m| - 1) % TWO_32
  {
    assert m.Keys == (m - {k}).Keys + {k};
    assert |m.Keys| == |(m - {k}).Keys| + 1;
  }

  class Manager {
    const hash: string -> nat
    const shards: array<map<string, Id>>
    var len: nat
    /** All shards as one map. */
    ghost var whole: map<string, Id>

    function Shard(key: string): (i: nat)
      ensures i < SHARDS
    {
      hash(key) % SHARDS
    }

    ghost function Part(m: map<string, Id>, i: nat): map<string, Id> {
      map k | k in m && Shard(k) == i :: m[k]
    }

    lemma PartOfChange(m: map<string, Id>, key: string, c: Id, i: nat)
      ensures Part(m[key := c], i) == if i == Shard(key) then Part(m, i)[key := c] else Part(m, i)
      ensures Part(m - {key}, i) == if i == Shard(key) then Part(m, i) - {key} else Part(m, i)
    {
    }

    /** The counter is the number of entries, as far as 32 bits can tell. */
    ghost predicate Valid()
      reads this, shards
    {
      && shards.Length == SHARDS
      && (forall i :: 0 <= i < SHARDS ==> shards[i] == Part(whole, i))
      && len == |whole| % TWO_32
    }

    constructor (hash: string -> nat)
      ensures Valid() && whole == map[] && fresh(shards)
    {
      this.hash := hash;
      shards := new map<string, Id>[SHARDS](_ => map[]);
      len, whole := 0, map[];
    }

    /** `Get`; a connection or nil. */
    method Get(uniqId: string) returns (conn: Option<Id>)
      requires Valid()
      ensures conn == if uniqId != "" && uniqId in whole then Some(whole[uniqId]) else None
    {
      if uniqId == "" { return None; }
      var sd := shards[Shard(uniqId)];
      if uniqId in sd { return Some(sd[uniqId]); }
      return None;
    }

    method Set(uniqId: string, conn: Id)
      requires Valid()
      modifies this, shards
      ensures Valid() && whole == if uniqId == "" then old(whole) else old(whole)[uniqId := conn]
    {
      if uniqId == "" { return; }
      var i := Shard(uniqId);
      var known := uniqId in shards[i];
      forall j { PartOfChange(whole, uniqId, conn, j); }
      shards[i] := shards[i][uniqId := conn];
      whole := whole[uniqId := conn];
      MoreEntries(old(whole), uniqId, conn);
      if !known {
        CountedUp(|old(whole)|);
        len := (len + 1) % TWO_32;
      }
    }

    /** Adding the complement of zero takes one away. */
    method Del(uniqId: string)
      requires Valid()
      modifies this, shards
      ensures Valid() && whole == if uniqId == "" then old(whole) else old(whole) - {uniqId}
    {
      if uniqId == "" { return; }
      var i := Shard(uniqId);
      if uniqId in shards[i] {
        forall j { PartOfChange(whole, uniqId, whole[uniqId], j); }
        shards[i] := shards[i] - {uniqId};
        whole := whole - {uniqId};
        FewerEntries(old(whole), uniqId);
        len := (len + (TWO_32 - 1)) % TWO_32;
      }
    }

    /** `Len` is exact below 2^32 entries. */
    method Len() returns (n: nat)
      requires Valid()
      ensures n == |whole| % TWO_32
    {
      n := len;
    }
  }
}
