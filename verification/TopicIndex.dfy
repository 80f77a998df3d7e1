/** The operations on many topics: they group their input by shard, then take each shard once. */
module TopicIndex {
  import opened Options
  import opened ShardedIndex

  // ---- grouping ----

  function Keys(list: seq<string>): set<string> {
    set k | k in list
  }

  ghost predicate Grouped(r: Index, wanted: set<string>, groups: seq<seq<string>>) {
    |groups| == SHARDS && forall i, k :: 0 <= i < SHARDS ==> (k in groups[i] <==> k in wanted && r.Shard(k) == i)
  }

  /** All keys of the list belong to shard `i`. */
  ghost predicate OfShard(r: Index, i: nat, list: seq<string>) {
    i < SHARDS && forall k :: k in list ==> r.Shard(k) == i
  }

  /** The keys of the first `n` groups. */
  ghost function UpTo(groups: seq<seq<string>>, n: nat): set<string>
    requires n <= |groups|
  {
    if n == 0 then {} else UpTo(groups, n - 1) + Keys(groups[n - 1])
  }

  lemma {:induction false} UpToMember(groups: seq<seq<string>>, n: nat, k: string)
    requires n <= |groups|
    ensures k in UpTo(groups, n) <==> exists i :: 0 <= i < n && k in groups[i]
  {
    if n > 0 { UpToMember(groups, n - 1, k); }
  }

  /** Grouping loses nothing and invents nothing. */
  lemma AllGroups(r: Index, wanted: set<string>, groups: seq<seq<string>>)
    requires Grouped(r, wanted, groups)
    ensures UpTo(groups, SHARDS) == wanted
  {
    forall k
      ensures k in UpTo(groups, SHARDS) <==> k in wanted
    {
      UpToMember(groups, SHARDS, k);
      if k in wanted { assert k in groups[r.Shard(k)]; }
    }
  }

  method Group(r: Index, topics: seq<string>) returns (groups: seq<seq<string>>)
    ensures Grouped(r, Named(topics), groups)
  {
    groups := seq(SHARDS, _ => []);
    for n := 0 to |topics|
      invariant Grouped(r, Named(topics[..n]), groups)
    {
      var topic := topics[n];
      assert topics[..n + 1] == topics[..n] + [topic];
      assert Named(topics[..n + 1]) == Named(topics[..n]) + if topic != "" then {topic} else {};
      if topic != "" {
        var i := r.Shard(topic);
        groups := groups[i := groups[i] + [topic]];
      }
    }
    assert topics[..|topics|] == topics;
  }

  lemma OneMore(list: seq<string>, n: nat)
    requires n < |list|
    ensures Keys(list[..n + 1]) == Keys(list[..n]) + {list[n]}
  {
    assert list[..n + 1] == list[..n] + [list[n]];
  }

  // ---- linking and unlinking ----

  /** The work on one shard, under its lock. */
  method LinkGroup(r: Index, i: nat, list: seq<string>, id: Id)
    requires r.Valid() && OfShard(r, i, list)
    modifies r.Repr()
    ensures r.Valid() && fresh(r.owned - old(r.owned))
    ensures r.flat == Linked(old(r.flat), Keys(list), id)
  {
    LinkedBoth(r.flat, {}, {}, id);
    for n := 0 to |list|
      invariant r.Valid() && fresh(r.owned - old(r.owned))
      invariant r.flat == Linked(old(r.flat), Keys(list[..n]), id)
    {
      LinkedBoth(old(r.flat), Keys(list[..n]), {list[n]}, id);
      OneMore(list, n);
      r.SetIn(i, list[n], id);
    }
    assert list[..|list|] == list;
  }

  /** `SetRelation`: links every topic of the list that is not empty. */
  method SetRelation(r: Index, topics: seq<string>, conn: Option<Id>)
    requires r.Valid()
    modifies r.Repr()
    ensures r.Valid() && fresh(r.owned - old(r.owned))
    ensures r.flat == if conn.None? then old(r.flat) else Linked(old(r.flat), Named(topics), conn.value)
  {
    if conn.Some? { LinkedBoth(r.flat, {}, {}, conn.value); }
    if |topics| == 0 || conn.None? { return; }
    var groups := Group(r, topics);
    LinkGroups(r, groups, conn.value, Named(topics));
  }

  /** The loop of `SetRelation` over the shards. */
  method LinkGroups(r: Index, groups: seq<seq<string>>, id: Id, ghost wanted: set<string>)
    requires r.Valid() && Grouped(r, wanted, groups)
    modifies r.Repr()
    ensures r.Valid() && fresh(r.owned - old(r.owned))
    ensures r.flat == Linked(old(r.flat), wanted, id)
  {
    LinkedBoth(r.flat, {}, {}, id);
    for i := 0 to SHARDS
      invariant r.Valid() && fresh(r.owned - old(r.owned))
      invariant r.flat == Linked(old(r.flat), UpTo(groups, i), id)
    {
      LinkedBoth(old(r.flat), UpTo(groups, i), Keys(groups[i]), id);
      if |groups[i]| != 0 {
        LinkGroup(r, i, groups[i], id);
      }
    }
    AllGroups(r, wanted, groups);
  }

  method UnlinkGroup(r: Index, i: nat, list: seq<string>, id: Id)
    requires r.Valid() && OfShard(r, i, list)
    modifies r.Repr()
    ensures r.Valid() && r.owned <= old(r.owned)
    ensures r.flat == Unlinked(old(r.flat), Keys(list), id)
  {
    UnlinkedBoth(r.flat, {}, {}, id);
    for n := 0 to |list|
      invariant r.Valid() && r.owned <= old(r.owned)
      invariant r.flat == Unlinked(old(r.flat), Keys(list[..n]), id)
    {
      UnlinkedBoth(old(r.flat), Keys(list[..n]), {list[n]}, id);
      OneMore(list, n);
      r.DelIn(i, list[n], id);
    }
    assert list[..|list|] == list;
  }

  /** `DelRelationBySlice`. */
  method DelRelationBySlice(r: Index, topics: seq<string>, id: Id)
    requires r.Valid()
    modifies r.Repr()
    ensures r.Valid() && r.owned <= old(r.owned)
    ensures r.flat == Unlinked(old(r.flat), Named(topics), id)
  {
    UnlinkedBoth(r.flat, {}, {}, id);
    if |topics| == 0 { return; }
    var groups := Group(r, topics);
    UnlinkGroups(r, groups, id, Named(topics));
  }

  /** The loop of `DelRelationBySlice` over the shards. */
  method UnlinkGroups(r: Index, groups: seq<seq<string>>, id: Id, ghost wanted: set<string>)
    requires r.Valid() && Grouped(r, wanted, groups)
    modifies r.Repr()
    ensures r.Valid() && r.owned <= old(r.owned)
    ensures r.flat == Unlinked(old(r.flat), wanted, id)
  {
    UnlinkedBoth(r.flat, {}, {}, id);
    for i := 0 to SHARDS
      invariant r.Valid() && r.owned <= old(r.owned)
      invariant r.flat == Unlinked(old(r.flat), UpTo(groups, i), id)
    {
      UnlinkedBoth(old(r.flat), UpTo(groups, i), Keys(groups[i]), id);
      if |groups[i]| != 0 {
        UnlinkGroup(r, i, groups[i], id);
      }
    }
    AllGroups(r, wanted, groups);
  }

  /** Ranges over a set of topics in some order. */
  method Ranged(topics: set<string>) returns (list: seq<string>)
    ensures Keys(list) == topics && |list| == |topics|
  {
    list := [];
    var left := topics;
    while left != {}
      invariant Keys(list) + left == topics && Keys(list) !! left
      invariant |list| + |left| == |topics|
    {
      var t :| t in left;
      list, left := list + [t], left - {t};
    }
  }

  /** `DelRelationByMap`: the same for the topics of a connection. */
  method DelRelationByMap(r: Index, topics: set<string>, id: Id)
    requires r.Valid()
    modifies r.Repr()
    ensures r.Valid() && r.owned <= old(r.owned)
    ensures r.flat == Unlinked(old(r.flat), topics - {""}, id)
  {
    var list := Ranged(topics);
    assert Named(list) == topics - {""};
    DelRelationBySlice(r, list, id);
  }

  // ---- handing a topic over ----

  /** The inner maps of `ret`, read as sets. */
  ghost function Flattened(ret: map<string, Members>): Relation
    reads ret.Values
  {
    map k | k in ret :: ret[k].ids
  }

  function OnlyOf(m: map<string, Members>, keys: set<string>): map<string, Members> {
    map k | k in m && k in keys :: m[k]
  }

  /** Of the index `w` the keys `taken` have moved to `ret`. */
  ghost predicate Moved(r: Index, w: map<string, Members>, had: set<Members>, taken: set<string>,
      ret: map<string, Members>)
    reads r, r.shards, r.owned
  {
    && r.Valid() && r.whole == w - taken && ret == OnlyOf(w, taken)
    && r.owned <= had && forall k :: k in ret ==> ret[k] in had && ret[k] !in r.owned
  }

  method TakeOne(r: Index, i: nat, topic: string, before: map<string, Members>, ghost w: map<string, Members>,
      ghost had: set<Members>, ghost taken: set<string>)
    returns (ret: map<string, Members>)
    requires Moved(r, w, had, taken, before) && i == r.Shard(topic)
    modifies r, r.shards
    ensures Moved(r, w, had, taken + {topic}, ret)
  {
    ret := before;
    var sd := r.shards[i];
    if topic in sd {
      ret := ret[topic := sd[topic]];
      r.Remove(i, topic);
    }
  }

  method TakeGroup(r: Index, i: nat, list: seq<string>, before: map<string, Members>, ghost w: map<string, Members>,
      ghost had: set<Members>, ghost taken: set<string>)
    returns (ret: map<string, Members>)
    requires Moved(r, w, had, taken, before) && OfShard(r, i, list)
    modifies r, r.shards
    ensures Moved(r, w, had, taken + Keys(list), ret)
  {
    ret := before;
    assert taken + Keys(list[..0]) == taken;
    for n := 0 to |list|
      invariant Moved(r, w, had, taken + Keys(list[..n]), ret)
    {
      OneMore(list, n);
      ret := TakeOne(r, i, list[n], ret, w, had, taken + Keys(list[..n]));
      assert taken + Keys(list[..n + 1]) == taken + Keys(list[..n]) + {list[n]};
    }
    assert list[..|list|] == list;
  }

  /** The loop of `Del` over the shards. */
  method TakeGroups(r: Index, groups: seq<seq<string>>, ghost wanted: set<string>) returns (ret: map<string, Members>)
    requires r.Valid() && Grouped(r, wanted, groups)
    modifies r, r.shards
    ensures Moved(r, old(r.whole), old(r.owned), UpTo(groups, SHARDS), ret)
  {
    ret := map[];
    for i := 0 to SHARDS
      invariant Moved(r, old(r.whole), old(r.owned), UpTo(groups, i), ret)
    {
      if |groups[i]| != 0 {
        ret := TakeGroup(r, i, groups[i], ret, old(r.whole), old(r.owned), UpTo(groups, i));
      } else {
        assert UpTo(groups, i + 1) == UpTo(groups, i);
      }
    }
  }

  /** `Del`: the topics leave the index, and the caller gets their inner maps themselves, unchanged. From
      then on the index neither holds nor writes them. */
  method Del(r: Index, topics: seq<string>) returns (ret: map<string, Members>)
    requires r.Valid()
    modifies r, r.shards
    ensures r.Valid() && r.owned <= old(r.owned)
    ensures r.flat == Without(old(r.flat), Named(topics))
    ensures Flattened(ret) == Only(old(r.flat), Named(topics))
    ensures ret.Values <= old(r.owned) && ret.Values !! r.owned
  {
    if |topics| == 0 { return map[]; }
    var groups := Group(r, topics);
    ret := TakeGroups(r, groups, Named(topics));
    AllGroups(r, Named(topics), groups);
  }

  // ---- reading ----

  lemma OnlyMore(m: Relation, done: set<string>, k: string)
    ensures Only(m, done + {k}) == if k in m then Only(m, done)[k := m[k]] else Only(m, done)
    ensures Only(m, {}) == map[]
  {
  }

  lemma CountsMore(m: Relation, k: string, ids: set<Id>)
    ensures Counts(m[k := ids]) == Counts(m)[k := Int32(|ids|)]
  {
  }

  method CountGroup(r: Index, i: nat, list: seq<string>, before: map<string, int>, ghost done: set<string>)
      returns (ret: map<string, int>)
    requires r.Valid() && OfShard(r, i, list) && before == Counts(Only(r.flat, done))
    ensures ret == Counts(Only(r.flat, done + Keys(list)))
  {
    ret := before;
    assert done + Keys(list[..0]) == done;
    for n := 0 to |list|
      invariant ret == Counts(Only(r.flat, done + Keys(list[..n])))
    {
      OneMore(list, n);
      assert done + Keys(list[..n + 1]) == done + Keys(list[..n]) + {list[n]};
      OnlyMore(r.flat, done + Keys(list[..n]), list[n]);
      var sd := r.shards[i];
      if list[n] in sd {
        var c := sd[list[n]];
        CountsMore(Only(r.flat, done + Keys(list[..n])), list[n], c.ids);
        ret := ret[list[n] := Int32(|c.ids|)];
      }
    }
    assert list[..|list|] == list;
  }

  /** `CountConnByTopic`. */
  method CountConnByTopic(r: Index, topics: seq<string>) returns (ret: map<string, int>)
    requires r.Valid()
    ensures ret == Counts(Only(r.flat, Named(topics)))
  {
    ret := map[];
    if |topics| == 0 { return; }
    var groups := Group(r, topics);
    for i := 0 to SHARDS
      invariant ret == Counts(Only(r.flat, UpTo(groups, i)))
    {
      if |groups[i]| != 0 {
        ret := CountGroup(r, i, groups[i], ret, UpTo(groups, i));
      } else {
        assert UpTo(groups, i + 1) == UpTo(groups, i);
      }
    }
    AllGroups(r, Named(topics), groups);
  }

  /** The keys that live in the first `n` shards. */
  ghost function Below(r: Index, n: nat): set<string>
    reads r
  {
    set k | k in r.whole && r.Shard(k) < n
  }

  /** The keys found in shard `i` belong there. */
  lemma ShardKeys(r: Index, i: nat, list: seq<string>)
    requires r.Valid() && i < SHARDS && Keys(list) == r.shards[i].Keys
    ensures OfShard(r, i, list)
  {
    forall k | k in list
      ensures r.Shard(k) == i
    {
      assert k in Keys(list);
    }
  }

  lemma BelowMore(r: Index, n: nat)
    requires r.Valid() && n < SHARDS
    ensures Below(r, n + 1) == Below(r, n) + r.shards[n].Keys
  {
  }

  lemma BelowAll(r: Index)
    requires r.Valid()
    ensures Only(r.flat, Below(r, SHARDS)) == r.flat
  {
  }

  /** `CountConn`. */
  method CountConn(r: Index) returns (ret: map<string, int>)
    requires r.Valid()
    ensures ret == Counts(r.flat)
  {
    ret := map[];
    for i := 0 to SHARDS
      invariant ret == Counts(Only(r.flat, Below(r, i)))
    {
      var list := Ranged(r.shards[i].Keys);
      ShardKeys(r, i, list);
      BelowMore(r, i);
      ret := CountGroup(r, i, list, ret, Below(r, i));
    }
    BelowAll(r);
  }

  method ListGroup(r: Index, i: nat, list: seq<string>, before: map<string, seq<Id>>, ghost done: set<string>)
      returns (ret: map<string, seq<Id>>)
    requires r.Valid() && OfShard(r, i, list) && ListsAll(before, Only(r.flat, done))
    ensures ListsAll(ret, Only(r.flat, done + Keys(list)))
  {
    ret := before;
    assert done + Keys(list[..0]) == done;
    for n := 0 to |list|
      invariant ListsAll(ret, Only(r.flat, done + Keys(list[..n])))
    {
      OneMore(list, n);
      assert done + Keys(list[..n + 1]) == done + Keys(list[..n]) + {list[n]};
      OnlyMore(r.flat, done + Keys(list[..n]), list[n]);
      var sd := r.shards[i];
      if list[n] in sd {
        var conns := sd[list[n]].List();
        ret := ret[list[n] := conns];
      }
    }
    assert list[..|list|] == list;
  }

  /** `GetConnListByTopics`, also `GetConnListByCustomerIds`. */
  method GetConnListByTopics(r: Index, topics: seq<string>) returns (ret: map<string, seq<Id>>)
    requires r.Valid()
    ensures ListsAll(ret, Only(r.flat, Named(topics)))
  {
    ret := map[];
    if |topics| == 0 { return; }
    var groups := Group(r, topics);
    for i := 0 to SHARDS
      invariant ListsAll(ret, Only(r.flat, UpTo(groups, i)))
    {
      if |groups[i]| != 0 {
        ret := ListGroup(r, i, groups[i], ret, UpTo(groups, i));
      } else {
        assert UpTo(groups, i + 1) == UpTo(groups, i);
      }
    }
    AllGroups(r, Named(topics), groups);
  }

  /** `GetConnListByTopic`, also `GetConnListByCustomerId`: no list at all for an unknown key. */
  method GetConnListByTopic(r: Index, topic: string) returns (ret: Option<seq<Id>>)
    requires r.Valid()
    ensures ret.Some? <==> topic != "" && topic in r.flat
    ensures ret.Some? ==> Lists(ret.value, r.flat[topic])
  {
    if topic == "" { return None; }
    var sd := r.shards[r.Shard(topic)];
    if topic !in sd { return None; }
    var conns := sd[topic].List();
    return Some(conns);
  }

  /** `GetConnList`. */
  method GetConnList(r: Index) returns (ret: map<string, seq<Id>>)
    requires r.Valid()
    ensures ListsAll(ret, r.flat)
  {
    ret := map[];
    for i := 0 to SHARDS
      invariant ListsAll(ret, Only(r.flat, Below(r, i)))
    {
      var list := Ranged(r.shards[i].Keys);
      ShardKeys(r, i, list);
      BelowMore(r, i);
      ret := ListGroup(r, i, list, ret, Below(r, i));
    }
    BelowAll(r);
  }
}
