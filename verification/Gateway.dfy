/** The commands of business processes and the connection callbacks, on indexes that are changed in place.
    Each is proved to do what the function of `RegistrySpec` says. */
module Gateways {
  import opened Options
  import opened ShardedIndex
  import TopicIndex
  import opened ConnectionManager
  import opened RegistrySpec

  class Gateway {
    const topics: Index
    const customers: Index
    const manager: Manager
    /** The info of every connection ever accepted; an id in an index stands for a reference to it. */
    var infos: map<Id, Info>

    ghost predicate Valid()
      reads topics, topics.shards, topics.owned, customers, customers.shards, customers.owned, manager, manager.shards
    {
      && topics.Valid() && customers.Valid() && manager.Valid()
      && topics != customers && topics.shards != customers.shards && topics.owned !! customers.owned
    }

    /** The indexes and the connections as one value. */
    ghost function Now(): World
      reads this, topics, customers, manager
    {
      World(topics.flat, customers.flat, manager.whole, infos)
    }

    constructor (topics: Index, customers: Index, manager: Manager)
      requires topics.Valid() && customers.Valid() && manager.Valid()
      requires topics != customers && topics.shards != customers.shards && topics.owned !! customers.owned
      ensures Valid() && Now() == World(topics.flat, customers.flat, manager.whole, map[])
      ensures this.topics == topics && this.customers == customers && this.manager == manager
    {
      this.topics, this.customers, this.manager := topics, customers, manager;
      infos := map[];
    }

    // ---- connection info ----

    /** Gives the topics away. */
    method PullTopics(id: Id) returns (ret: set<string>)
      requires id in infos
      modifies this
      ensures ret == old(infos[id].topics) && infos == old(infos[id := infos[id].(topics := {})])
    {
      ret := infos[id].topics;
      infos := infos[id := infos[id].(topics := {})];
    }

    method SubscribeTopics(id: Id, list: seq<string>)
      requires id in infos
      modifies this
      ensures infos == old(infos)[id := Subscribed(old(infos[id]), list)]
    {
      ghost var i := infos[id];
      assert infos == old(infos)[id := i] && i.topics + Named(list[..0]) == i.topics;
      for n := 0 to |list|
        invariant infos == old(infos)[id := i.(topics := i.topics + Named(list[..n]))]
      {
        assert Named(list[..n + 1]) == Named(list[..n]) + if list[n] != "" then {list[n]} else {} by {
          assert list[..n + 1] == list[..n] + [list[n]];
        }
        var topics := infos[id].topics;
        if list[n] != "" && list[n] !in topics {
          assert i.topics + Named(list[..n + 1]) == topics + {list[n]};
          infos := infos[id := infos[id].(topics := topics + {list[n]})];
        } else {
          assert i.topics + Named(list[..n + 1]) == topics;
        }
      }
      assert list[..|list|] == list;
    }

    method UnsubscribeTopics(id: Id, list: seq<string>)
      requires id in infos
      modifies this
      ensures infos == old(infos)[id := Unsubscribed(old(infos[id]), list)]
    {
      ghost var i := infos[id];
      assert infos == old(infos)[id := i] && (i.topics - set t | t in list[..0]) == i.topics;
      for n := 0 to |list|
        invariant infos == old(infos)[id := Unsubscribed(i, list[..n])]
      {
        assert list[..n + 1] == list[..n] + [list[n]];
        assert Unsubscribed(i, list[..n + 1]).topics == infos[id].topics - {list[n]};
        infos := infos[id := infos[id].(topics := infos[id].topics - {list[n]})];
      }
      assert list[..|list|] == list;
    }

    method UnsubscribeTopic(id: Id, topic: string) returns (had: bool)
      requires id in infos
      modifies this
      ensures had == (topic in old(infos[id].topics))
      ensures infos == old(infos)[id := old(infos[id]).(topics := old(infos[id].topics) - {topic})]
    {
      had := topic in infos[id].topics;
      assert !had ==> infos[id].topics - {topic} == infos[id].topics && infos[id := infos[id]] == infos;
      if had { infos := infos[id := infos[id].(topics := infos[id].topics - {topic})]; }
    }

    // ---- the commands ----

    /** `Manager.Get` and the check for closed connections. */
    method Lookup(uniqId: string) returns (conn: Option<Id>)
      requires Valid()
      ensures conn == Target(Now(), uniqId)
    {
      if uniqId == "" { return None; }
      var id := manager.Get(uniqId);
      if id.None? || id.value !in infos || infos[id.value].closed { return None; }
      return id;
    }

    method LinkTopics(id: Id, list: seq<string>)
      requires Valid()
      modifies topics, topics.shards, topics.owned
      ensures Valid() && fresh(topics.owned - old(topics.owned))
      ensures topics.flat == Linked(old(topics.flat), Named(list), id)
    {
      TopicIndex.SetRelation(topics, list, Some(id));
    }

    method UnlinkTopics(id: Id, list: seq<string>)
      requires Valid()
      modifies topics, topics.shards, topics.owned
      ensures Valid() && topics.owned <= old(topics.owned)
      ensures topics.flat == Unlinked(old(topics.flat), Named(list), id)
    {
      TopicIndex.DelRelationBySlice(topics, list, id);
    }

    /** Connection and index change together. */
    method Link(id: Id, list: seq<string>)
      requires Valid() && id in infos
      modifies this, topics, topics.shards, topics.owned
      ensures Valid() && fresh(topics.owned - old(topics.owned))
      ensures topics.flat == Linked(old(topics.flat), Named(list), id)
      ensures infos == old(infos)[id := Subscribed(old(infos[id]), list)]
    {
      SubscribeTopics(id, list);
      LinkTopics(id, list);
    }

    method Unlink(id: Id, list: seq<string>)
      requires Valid() && id in infos
      modifies this, topics, topics.shards, topics.owned
      ensures Valid() && topics.owned <= old(topics.owned)
      ensures topics.flat == Unlinked(old(topics.flat), Named(list), id)
      ensures infos == old(infos)[id := Unsubscribed(old(infos[id]), list)]
    {
      UnsubscribeTopics(id, list);
      UnlinkTopics(id, list);
    }

    /** `topicSubscribe`. */
    method TopicSubscribe(uniqId: string, list: seq<string>)
      requires Valid()
      modifies this, topics, topics.shards, topics.owned
      ensures Valid() && fresh(topics.owned - old(topics.owned))
      ensures Now() == if list == [] then old(Now()) else DoSubscribe(old(Now()), uniqId, list)
    {
      if |list| == 0 { return; }
      var conn := Lookup(uniqId);
      if conn.None? { return; }
      Link(conn.value, list);
    }

    /** `topicUnsubscribe`. */
    method TopicUnsubscribe(uniqId: string, list: seq<string>)
      requires Valid()
      modifies this, topics, topics.shards, topics.owned
      ensures Valid() && topics.owned <= old(topics.owned)
      ensures Now() == if list == [] then old(Now()) else DoUnsubscribe(old(Now()), uniqId, list)
    {
      if |list| == 0 { return; }
      var conn := Lookup(uniqId);
      if conn.None? { return; }
      Unlink(conn.value, list);
    }

    method Unbind(customerId: string, id: Id)
      requires Valid()
      modifies customers, customers.shards, customers.owned
      ensures Valid() && customers.owned <= old(customers.owned)
      ensures customers.flat == RegistrySpec.Unbind(old(customers.flat), customerId, id)
    {
      if customerId != "" { customers.DelRelation(customerId, id); }
    }

    method Bind(customerId: string, id: Id)
      requires Valid()
      modifies customers, customers.shards, customers.owned
      ensures Valid() && fresh(customers.owned - old(customers.owned))
      ensures customers.flat == RegistrySpec.Bind(old(customers.flat), customerId, id)
    {
      if customerId != "" { customers.SetRelation(customerId, id); }
    }

    /** The customerId part of `connInfoUpdate`. */
    method Rebind(id: Id, customerId: string)
      requires Valid() && id in infos
      modifies this, customers, customers.shards, customers.owned
      ensures Valid() && fresh(customers.owned - old(customers.owned))
      ensures customers.flat == Rebound(old(customers.flat), old(infos[id]), id, customerId)
      ensures infos == old(infos)[id := Identified(old(infos[id]), customerId)]
      ensures topics.flat == old(topics.flat) && topics.owned == old(topics.owned)
    {
      if customerId == "" { return; }
      Exchange(infos[id].customerId, customerId, id);
      Write(id, infos[id].(customerId := customerId));
    }

    /** Moves a connection from one customerId to another. */
    method Exchange(before: string, now: string, id: Id)
      requires Valid()
      modifies customers, customers.shards, customers.owned
      ensures Valid() && fresh(customers.owned - old(customers.owned))
      ensures customers.flat == RegistrySpec.Bind(RegistrySpec.Unbind(old(customers.flat), before, id), now, id)
    {
      Unbind(before, id);
      Bind(now, id);
    }

    /** Takes all topics from a connection and out of the index. */
    method DropTopics(id: Id)
      requires Valid() && id in infos
      modifies this, topics, topics.shards, topics.owned
      ensures Valid() && topics.owned <= old(topics.owned)
      ensures topics.flat == Unlinked(old(topics.flat), old(infos[id].topics) - {""}, id)
      ensures infos == old(infos)[id := old(infos[id]).(topics := {})]
    {
      var pulled := PullTopics(id);
      TopicIndex.DelRelationByMap(topics, pulled, id);
    }

    /** The topics part of `connInfoUpdate`. */
    method Retopic(id: Id, list: seq<string>)
      requires Valid() && id in infos
      modifies this, topics, topics.shards, topics.owned
      ensures Valid() && fresh(topics.owned - old(topics.owned))
      ensures topics.flat == Retopiced(old(topics.flat), old(infos[id]), id, list)
      ensures infos == old(infos)[id := Replaced(old(infos[id]), list)]
      ensures customers.flat == old(customers.flat) && customers.owned == old(customers.owned)
    {
      if |list| == 0 { return; }
      DropTopics(id);
      Link(id, list);
    }

    /** Changes the info of one connection only. */
    method Write(id: Id, i: Info)
      requires Valid() && id in infos
      modifies this
      ensures Valid() && infos == old(infos)[id := i]
    {
      infos := infos[id := i];
    }

    method Renew(id: Id, customerId: string, list: seq<string>)
      requires Valid() && id in infos
      modifies this, topics, topics.shards, topics.owned, customers, customers.shards, customers.owned
      ensures Valid() && fresh(topics.owned - old(topics.owned)) && fresh(customers.owned - old(customers.owned))
      ensures topics.flat == Retopiced(old(topics.flat), old(infos[id]), id, list)
      ensures customers.flat == Rebound(old(customers.flat), old(infos[id]), id, customerId)
      ensures infos == old(infos)[id := Replaced(Identified(old(infos[id]), customerId), list)]
    {
      Rebind(id, customerId);
      Retopic(id, list);
    }

    method Login(id: Id, session: string)
      requires Valid() && id in infos
      modifies this
      ensures Valid() && infos == old(infos)[id := WithSession(old(infos[id]), session)]
    {
      if session != "" { infos := infos[id := infos[id].(session := session)]; }
    }

    /** `connInfoUpdate` under the lock of the connection. */
    method UpdateInfo(id: Id, session: string, customerId: string, list: seq<string>)
      requires Valid() && id in infos
      modifies this, topics, topics.shards, topics.owned, customers, customers.shards, customers.owned
      ensures Valid() && fresh(topics.owned - old(topics.owned)) && fresh(customers.owned - old(customers.owned))
      ensures topics.flat == Retopiced(old(topics.flat), old(infos[id]), id, list)
      ensures customers.flat == Rebound(old(customers.flat), old(infos[id]), id, customerId)
      ensures infos == old(infos)[id := Updated(old(infos[id]), session, customerId, list)]
    {
      Login(id, session);
      Renew(id, customerId, list);
    }

    /** `connInfoUpdate`. */
    method ConnInfoUpdate(uniqId: string, session: string, customerId: string, list: seq<string>)
      requires Valid()
      modifies this, topics, topics.shards, topics.owned, customers, customers.shards, customers.owned
      ensures Valid() && fresh(topics.owned - old(topics.owned)) && fresh(customers.owned - old(customers.owned))
      ensures Now() == DoUpdate(old(Now()), uniqId, session, customerId, list)
    {
      var conn := Lookup(uniqId);
      if conn.None? { return; }
      UpdateInfo(conn.value, session, customerId, list);
    }

    method DropCustomer(id: Id)
      requires Valid() && id in infos
      modifies this, customers, customers.shards, customers.owned
      ensures Valid() && customers.owned <= old(customers.owned)
      ensures customers.flat == RegistrySpec.Unbind(old(customers.flat), old(infos[id].customerId), id)
      ensures infos == old(infos)[id := old(infos[id]).(customerId := "")]
    {
      Unbind(infos[id].customerId, id);
      Write(id, infos[id].(customerId := ""));
    }

    /** `connInfoDelete` under the lock of the connection. */
    method DeleteInfo(id: Id, delTopic: bool, delSession: bool, delCustomerId: bool)
      requires Valid() && id in infos
      modifies this, topics, topics.shards, topics.owned, customers, customers.shards, customers.owned
      ensures Valid() && topics.owned <= old(topics.owned) && customers.owned <= old(customers.owned)
      ensures topics.flat == if delTopic then Unlinked(old(topics.flat), old(infos[id].topics) - {""}, id)
          else old(topics.flat)
      ensures customers.flat == if delCustomerId
          then RegistrySpec.Unbind(old(customers.flat), old(infos[id].customerId), id) else old(customers.flat)
      ensures infos == old(infos)[id := Deleted(old(infos[id]), delTopic, delSession, delCustomerId)]
    {
      if delTopic { DropTopics(id); }
      DeleteRest(id, delSession, delCustomerId);
    }

    method DeleteRest(id: Id, delSession: bool, delCustomerId: bool)
      requires Valid() && id in infos
      modifies this, customers, customers.shards, customers.owned
      ensures Valid() && customers.owned <= old(customers.owned)
      ensures topics.flat == old(topics.flat) && topics.owned == old(topics.owned)
      ensures customers.flat == if delCustomerId
          then RegistrySpec.Unbind(old(customers.flat), old(infos[id].customerId), id) else old(customers.flat)
      ensures infos == old(infos)[id := Deleted(old(infos[id]), false, delSession, delCustomerId)]
    {
      if delSession { Write(id, infos[id].(session := "")); }
      if delCustomerId { DropCustomer(id); }
    }

    /** `connInfoDelete`. */
    method ConnInfoDelete(uniqId: string, delTopic: bool, delSession: bool, delCustomerId: bool)
      requires Valid()
      modifies this, topics, topics.shards, topics.owned, customers, customers.shards, customers.owned
      ensures Valid() && topics.owned <= old(topics.owned) && customers.owned <= old(customers.owned)
      ensures Now() == DoDelete(old(Now()), uniqId, delTopic, delSession, delCustomerId)
    {
      var conn := Lookup(uniqId);
      if conn.None? { return; }
      DeleteInfo(conn.value, delTopic, delSession, delCustomerId);
    }

    method Register(id: Id)
      requires Valid() && id in infos
      modifies manager, manager.shards
      ensures Valid() && manager.whole == if infos[id].uniqId == "" then old(manager.whole)
          else old(manager.whole)[infos[id].uniqId := id]
    {
      manager.Set(infos[id].uniqId, id);
    }

    method Unregister(id: Id)
      requires Valid() && id in infos
      modifies manager, manager.shards
      ensures Valid() && manager.whole == if infos[id].uniqId == "" then old(manager.whole)
          else old(manager.whole) - {infos[id].uniqId}
    {
      manager.Del(infos[id].uniqId);
    }

    /** What the callback's answer says about the connection itself. */
    method Greet(id: Id, session: string, customerId: string, list: seq<string>)
      requires Valid() && id in infos
      modifies this
      ensures Valid() && infos == old(infos)[id := Greeted(old(infos[id]).(joined := true), session, customerId, list)]
    {
      Introduce(id, session, customerId);
      SubscribeTopics(id, list);
    }

    method Introduce(id: Id, session: string, customerId: string)
      requires Valid() && id in infos
      modifies this
      ensures Valid() && infos == old(infos)[id := Introduced(old(infos[id]).(joined := true), session, customerId)]
    {
      Write(id, infos[id].(joined := true));
      Login(id, session);
      Identify(id, customerId);
    }

    method Identify(id: Id, customerId: string)
      requires Valid() && id in infos
      modifies this
      ensures Valid()
      ensures infos == old(infos)[id := Identified(old(infos[id]), customerId)]
    {
      if customerId != "" { infos := infos[id := infos[id].(customerId := customerId)]; }
    }

    method Enter(id: Id, customerId: string, list: seq<string>)
      requires Valid()
      modifies topics, topics.shards, topics.owned, customers, customers.shards, customers.owned
      ensures Valid() && fresh(topics.owned - old(topics.owned)) && fresh(customers.owned - old(customers.owned))
      ensures topics.flat == Linked(old(topics.flat), Named(list), id)
      ensures customers.flat == RegistrySpec.Bind(old(customers.flat), customerId, id)
    {
      Bind(customerId, id);
      LinkTopics(id, list);
    }

    method Admit(id: Id, session: string, customerId: string, list: seq<string>)
      requires Valid() && id in infos
      modifies this, topics, topics.shards, topics.owned, customers, customers.shards, customers.owned, manager,
          manager.shards
      ensures Valid() && fresh(topics.owned - old(topics.owned)) && fresh(customers.owned - old(customers.owned))
      ensures topics.flat == Linked(old(topics.flat), Named(list), id)
      ensures customers.flat == RegistrySpec.Bind(old(customers.flat), customerId, id)
      ensures infos == old(infos)[id := Greeted(old(infos[id]).(joined := true), session, customerId, list)]
      ensures manager.whole == if infos[id].uniqId == "" then old(manager.whole)
          else old(manager.whole)[infos[id].uniqId := id]
    {
      Greet(id, session, customerId, list);
      Register(id);
      Enter(id, customerId, list);
    }

    /** The registration tail of `OnWebsocketOpen`. */
    method OnWebsocketOpen(id: Id, session: string, customerId: string, list: seq<string>)
      requires Valid() && id in infos && !infos[id].joined
      modifies this, topics, topics.shards, topics.owned, customers, customers.shards, customers.owned, manager,
          manager.shards
      ensures Valid() && fresh(topics.owned - old(topics.owned)) && fresh(customers.owned - old(customers.owned))
      ensures Now() == DoOpen(old(Now()), id, session, customerId, list)
    {
      if infos[id].closed {
        Write(id, infos[id].(joined := true));
        return;
      }
      Admit(id, session, customerId, list);
    }

    /** `SnapshotOnSafe`: the customerId, and the topics in the order in which they are ranged over. */
    method Snapshot(id: Id) returns (customerId: string, list: seq<string>)
      requires id in infos
      ensures customerId == infos[id].customerId && Named(list) == infos[id].topics - {""}
    {
      customerId := infos[id].customerId;
      list := TopicIndex.Ranged(infos[id].topics);
    }

    /** `OnClose` with `OnWebsocketClose`. */
    method OnClose(id: Id)
      requires Valid() && id in infos
      modifies this, topics, topics.shards, topics.owned, customers, customers.shards, customers.owned, manager,
          manager.shards
      ensures Valid() && topics.owned <= old(topics.owned) && customers.owned <= old(customers.owned)
      ensures Now() == DoClose(old(Now()), id)
    {
      Write(id, infos[id].(closed := true));
      Unregister(id);
      var customerId, list := Snapshot(id);
      Unbind(customerId, id);
      UnlinkTopics(id, list);
    }
  
    // ---- deleting topics ----

    /** The inner loop of `topicDelete`: one topic leaves the connections that were in its entry. */
    method StripTopic(t: string, entry: Members) returns (told: set<Id>)
      modifies this
      ensures infos == Strip(old(infos), map[t := entry.ids])
      ensures told == Told(old(infos), map[t := entry.ids])
    {
      var list := entry.List();
      told := {};
      StripNothing(infos, map[t := {}]);
      assert Ids(list[..0]) == {};
      for n := 0 to |list|
        invariant infos == Strip(old(infos), map[t := Ids(list[..n])])
        invariant told == Told(old(infos), map[t := Ids(list[..n])])
      {
        assert list[..n + 1] == list[..n] + [list[n]];
        assert Ids(list[..n + 1]) == Ids(list[..n]) + {list[n]};
        StripOne(old(infos), t, Ids(list[..n]), list[n]);
        if list[n] in infos {
          var had := UnsubscribeTopic(list[n], t);
          if had { told := told + {list[n]}; }
        }
      }
      assert list[..|list|] == list && Ids(list) == entry.ids;
    }

    /** The outer loop. */
    method StripAll(arr: map<string, Members>) returns (told: set<Id>)
      modifies this
      ensures infos == Strip(old(infos), TopicIndex.Flattened(arr))
      ensures told == Told(old(infos), TopicIndex.Flattened(arr))
    {
      told := {};
      ghost var gone: Relation := map[];
      StripNothing(infos, gone);
      var left := arr.Keys;
      while left != {}
        invariant left <= arr.Keys && gone == Only(TopicIndex.Flattened(arr), arr.Keys - left)
        invariant infos == Strip(old(infos), gone) && told == Told(old(infos), gone)
      {
        var t :| t in left;
        StripMore(old(infos), gone, t, arr[t].ids);
        var more := StripTopic(t, arr[t]);
        told, left, gone := told + more, left - {t}, gone[t := arr[t].ids];
      }
      assert gone == TopicIndex.Flattened(arr);
    }

    /** The topics leave the index, then the connections. */
    method StripTopics(list: seq<string>) returns (told: set<Id>)
      requires Valid()
      modifies this, topics, topics.shards
      ensures Valid() && topics.owned <= old(topics.owned)
      ensures Now() == DoTopicDelete(old(Now()), list) && told == Notified(old(Now()), list)
    {
      var arr := TopicIndex.Del(topics, list);
      told := StripAll(arr);
    }

    /** `topicDelete`: with data, everyone who lost a topic gets it exactly once. */
    method TopicDelete(list: seq<string>, data: bool) returns (sent: seq<Id>)
      requires Valid()
      modifies this, topics, topics.shards
      ensures Valid() && topics.owned <= old(topics.owned)
      ensures Now() == DoTopicDelete(old(Now()), list)
      ensures Lists(sent, if data then Notified(old(Now()), list) else {})
    {
      var told := StripTopics(list);
      if !data { return []; }
      var unsubscribed := new Members(told);
      sent := unsubscribed.List();
    }
  }

  function Ids(list: seq<Id>): set<Id> {
    set x | x in list
  }
}
