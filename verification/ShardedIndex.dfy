/** The topic index and the customer index: key to set of connections, cut into 256 shards. A connection
    is named by its process-wide id. */
module ShardedIndex {

  type Id = nat
  type Relation = map<string, set<Id>>

  const SHARDS: nat := 256

  // ---- the unsharded relation ----

  function At(m: Relation, key: string): set<Id> {
    if key in m then m[key] else {}
  }

  /** The keys of an input list that count: duplicates and the empty string make no difference. */
  function Named(keys: seq<string>): set<string> {
    set k | k in keys && k != ""
  }

  function Linked(m: Relation, keys: set<string>, id: Id): Relation {
    map k | k in m.Keys + keys :: if k in keys then At(m, k) + {id} else m[k]
  }

  /** A key whose last connection goes, goes too. */
  function Unlinked(m: Relation, keys: set<string>, id: Id): Relation {
    map k | k in m && !(k in keys && m[k] <= {id}) :: if k in keys then m[k] - {id} else m[k]
  }

  function Without(m: Relation, keys: set<string>): Relation {
    map k | k in m && k !in keys :: m[k]
  }

  function Only(m: Relation, keys: set<string>): Relation {
    map k | k in m && k in keys :: m[k]
  }

  /** Go's conversion to int32. */
  function Int32(n: int): int {
    (n + 0x8000_0000) % 0x1_0000_0000 - 0x8000_0000
  }

  function Counts(m: Relation): map<string, int> {
    map k | k in m :: Int32(|m[k]|)
  }

  /** Up to 2^31 - 1 connections a count is the number of connections; beyond, it is off by multiples of 2^32. */
  lemma CountsExactly(m: Relation, k: string)
    requires k in m
    ensures Counts(m)[k] == |m[k]| <==> |m[k]| < 0x8000_0000
    ensures -0x8000_0000 <= Counts(m)[k] < 0x8000_0000 && (Counts(m)[k] - |m[k]|) % 0x1_0000_0000 == 0
  {
    var n, r := |m[k]|, (|m[k]| + 0x8000_0000) % 0x1_0000_0000;
    assert n + 0x8000_0000 == (n + 0x8000_0000) / 0x1_0000_0000 * 0x1_0000_0000 + r;
  }

  /** `list` holds every connection of `ids` once, in the order in which a Go map happens to be ranged over. */
  ghost predicate Lists(list: seq<Id>, ids: set<Id>) {
    && (forall x :: x in list <==> x in ids)
    && forall i, j :: 0 <= i < j < |list| ==> list[i] != list[j]
  }

  ghost predicate ListsAll(lists: map<string, seq<Id>>, m: Relation) {
    lists.Keys == m.Keys && forall k :: k in m ==> Lists(lists[k], m[k])
  }

  predicate NoEmpty(m: Relation) {
    forall k :: k in m ==> m[k] != {}
  }

  lemma LinkedBoth(m: Relation, a: set<string>, b: set<string>, id: Id)
    ensures Linked(Linked(m, a, id), b, id) == Linked(m, a + b, id)
    ensures Linked(m, {}, id) == m
  {
  }

  lemma UnlinkedBoth(m: Relation, a: set<string>, b: set<string>, id: Id)
    ensures Unlinked(Unlinked(m, a, id), b, id) == Unlinked(m, a + b, id)
    ensures Unlinked(m, {}, id) == m
  {
    var v, w := Unlinked(Unlinked(m, a, id), b, id), Unlinked(m, a + b, id);
    forall k | k in m
      ensures k in v <==> k in w
      ensures k in v ==> v[k] == w[k]
    {
      assert m[k] - {id} <= {id} <==> m[k] <= {id} by {
        if m[k] - {id} <= {id} {
          assert forall x :: x in m[k] ==> x in m[k] - {id} || x == id;
        }
      }
      assert m[k] - {id} - {id} == m[k] - {id};
    }
    assert forall k :: k in v ==> k in m;
  }

  /** What the relation says after linking: exactly the new pairs were added. */
  lemma LinkedAt(m: Relation, keys: set<string>, id: Id, k: string)
    ensures At(Linked(m, keys, id), k) == At(m, k) + if k in keys then {id} else {}
    ensures NoEmpty(m) ==> NoEmpty(Linked(m, keys, id))
  {
  }

  /** What the relation says after unlinking: exactly the pairs were removed, and no empty set is left behind. */
  lemma UnlinkedAt(m: Relation, keys: set<string>, id: Id, k: string)
    ensures At(Unlinked(m, keys, id), k) == At(m, k) - if k in keys then {id} else {}
    ensures NoEmpty(m) ==> NoEmpty(Unlinked(m, keys, id))
  {
    if NoEmpty(m) {
      var u := Unlinked(m, keys, id);
      forall x | x in u
        ensures u[x] != {}
      {
      }
    }
  }

  lemma UnlinkedOne(m: Relation, key: string, id: Id)
    ensures Unlinked(m, {key}, id) ==
            if key !in m then m else if m[key] - {id} == {} then m - {key} else m[key := m[key] - {id}]
  {
    if key in m { assert m[key] - {id} == {} <==> m[key] <= {id}; }
  }

  lemma LinkedOne(m: Relation, key: string, id: Id)
    ensures Linked(m, {key}, id) == m[key := if key in m then m[key] + {id} else {id}]
  {
    assert {} + {id} == {id};
  }

  /** On relations without empty sets unlinking undoes linking a connection that was not there. */
  lemma UnlinkUndoesLink(m: Relation, keys: set<string>, id: Id)
    requires NoEmpty(m) && forall k :: k in keys ==> id !in At(m, k)
    ensures Unlinked(Linked(m, keys, id), keys, id) == m
  {
    var l := Linked(m, keys, id);
    forall k | k in l
      ensures k in m <==> !(k in keys && l[k] <= {id})
      ensures k in m ==> (if k in keys then l[k] - {id} else l[k]) == m[k]
    {
      if k in keys && k in m {
        var x :| x in m[k];
        assert x in l[k] && x != id;
      }
    }
  }

  // ---- the shards ----

  /** The inner Go map of one key. */
  class Members {
    var ids: set<Id>

    constructor (ids: set<Id>)
      ensures this.ids == ids
    {
      this.ids := ids;
    }

    /** Ranges over the map. */
    method List() returns (list: seq<Id>)
      ensures Lists(list, ids)
    {
      list := [];
      var left := ids;
      while left != {}
        invariant forall x :: x in ids <==> x in left || x in list
        invariant forall x :: x in list ==> x !in left
        invariant forall i, j :: 0 <= i < j < |list| ==> list[i] != list[j]
      {
        var x :| x in left;
        list, left := list + [x], left - {x};
      }
    }
  }

  class Index {
    const hash: string -> nat
    const shards: array<map<string, Members>>
    /** All shards as one map. */
    ghost var whole: map<string, Members>
    /** The index as one unsharded relation. */
    ghost var flat: Relation
    /** The inner maps that the index owns. */
    ghost var owned: set<Members>

    function Shard(key: string): (i: nat)
      ensures i < SHARDS
    {
      hash(key) % SHARDS
    }

    /** What shard `i` holds of the map `m`. */
    ghost function Part(m: map<string, Members>, i: nat): map<string, Members> {
      map k | k in m && Shard(k) == i :: m[k]
    }

    lemma PartOfChange(m: map<string, Members>, key: string, c: Members, i: nat)
      ensures Part(m[key := c], i) == if i == Shard(key) then Part(m, i)[key := c] else Part(m, i)
      ensures Part(m - {key}, i) == if i == Shard(key) then Part(m, i) - {key} else Part(m, i)
    {
    }

    ghost predicate Valid()
      reads this, shards, owned
    {
      && shards.Length == SHARDS
      && (forall i :: 0 <= i < SHARDS ==> shards[i] == Part(whole, i))
      && (forall j, k :: j in whole && k in whole && j != k ==> whole[j] != whole[k])
      && flat.Keys == whole.Keys
      && (forall k :: k in whole ==> whole[k] in owned && flat[k] == whole[k].ids)
    }

    /** Everything the index may change. */
    ghost function Repr(): set<object>
      reads this
    {
      {this, shards} + owned
    }

    constructor (hash: string -> nat)
      ensures Valid() && flat == map[] && fresh(Repr())
    {
      this.hash := hash;
      shards := new map<string, Members>[SHARDS](_ => map[]);
      whole, flat, owned := map[], map[], {};
    }

    /** Overwrites the inner map of a key of shard `i`. */
    method Put(i: nat, key: string, ids: set<Id>)
      requires Valid() && key in whole && i == Shard(key)
      modifies this`flat, owned
      ensures Valid() && flat == old(flat)[key := ids]
    {
      shards[i][key].ids := ids;
      flat := flat[key := ids];
    }

    /** A new key of shard `i` with a new inner map. */
    method Insert(i: nat, key: string, id: Id)
      requires Valid() && key !in whole && i == Shard(key)
      modifies this, shards
      ensures Valid() && flat == old(flat)[key := {id}]
      ensures fresh(owned - old(owned))
    {
      var c := new Members({id});
      shards[i] := shards[i][key := c];
      forall j { PartOfChange(whole, key, c, j); }
      whole, flat, owned := whole[key := c], flat[key := {id}], owned + {c};
    }

    /** Forgets a key of shard `i`; its inner map stays as it is. */
    method Remove(i: nat, key: string)
      requires Valid() && i == Shard(key)
      modifies this, shards
      ensures Valid() && whole == old(whole) - {key}
      ensures owned == if key in old(whole) then old(owned) - {old(whole)[key]} else old(owned)
      ensures flat == old(flat) - {key}
    {
      shards[i] := shards[i] - {key};
      if key in whole {
        forall j { PartOfChange(whole, key, whole[key], j); }
        owned := owned - {whole[key]};
      }
      whole, flat := whole - {key}, flat - {key};
    }

    /** What `SetRelation` does to one key while it holds the lock of shard `i`. */
    method SetIn(i: nat, key: string, id: Id)
      requires Valid() && i == Shard(key)
      modifies this, shards, owned
      ensures Valid() && fresh(owned - old(owned))
      ensures flat == Linked(old(flat), {key}, id)
    {
      var sd := shards[i];
      LinkedOne(flat, key, id);
      if key in sd {
        Put(i, key, sd[key].ids + {id});
      } else {
        Insert(i, key, id);
      }
    }

    /** What `DelRelation` does to one key while it holds the lock of shard `i`. */
    method DelIn(i: nat, key: string, id: Id)
      requires Valid() && i == Shard(key)
      modifies this, shards, owned
      ensures Valid() && owned <= old(owned)
      ensures flat == Unlinked(old(flat), {key}, id)
    {
      var sd := shards[i];
      UnlinkedOne(flat, key, id);
      if key in sd {
        Put(i, key, sd[key].ids - {id});
        if sd[key].ids == {} {
          Remove(i, key);
        }
      }
    }

    /** `SetRelation` of the customer index. */
    method SetRelation(key: string, id: Id)
      requires Valid()
      modifies this, shards, owned
      ensures Valid() && fresh(owned - old(owned))
      ensures flat == Linked(old(flat), {key}, id)
    {
      SetIn(Shard(key), key, id);
    }

    /** `DelRelation` of the customer index. */
    method DelRelation(key: string, id: Id)
      requires Valid()
      modifies this, shards, owned
      ensures Valid() && owned <= old(owned)
      ensures flat == Unlinked(old(flat), {key}, id)
    {
      DelIn(Shard(key), key, id);
    }
  }
}
