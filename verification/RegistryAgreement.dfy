/** The connections and the indexes tell the same story after every run of commands. */
module RegistryAgreement {
  import opened Options
  import opened ShardedIndex
  import opened RegistrySpec

  ghost predicate Names(w: World) {
    && (forall i :: i in w.infos ==> w.infos[i].uniqId != "")
    && (forall i, j :: i in w.infos && j in w.infos && w.infos[i].uniqId == w.infos[j].uniqId ==> i == j)
    && (forall u :: u in w.manager ==> w.manager[u] in w.infos && w.infos[w.manager[u]].uniqId == u)
  }

  /** A connection that was not opened yet, or was closed, has no place in the registry. */
  ghost predicate Fresh(w: World) {
    forall i :: i in w.infos && !w.infos[i].joined ==>
      !Registered(w, i) && w.infos[i].topics == {} && w.infos[i].customerId == ""
  }

  ghost predicate TopicsAgree(w: World) {
    && (forall t, i :: i in At(w.topics, t) <==> Registered(w, i) && t in w.infos[i].topics)
    && (forall i :: i in w.infos ==> "" !in w.infos[i].topics)
  }

  ghost predicate CustomersAgree(w: World) {
    forall c, i :: i in At(w.customers, c) <==> Registered(w, i) && w.infos[i].customerId == c && c != ""
  }

  ghost predicate Agreement(w: World) {
    Names(w) && Fresh(w) && TopicsAgree(w) && CustomersAgree(w) && NoEmpty(w.topics) && NoEmpty(w.customers)
  }

  /** The relation `m'` is `m` with the sets of connection `id` replaced by `keys`. */
  ghost predicate Rewired(m: Relation, m': Relation, id: Id, keys: set<string>) {
    && NoEmpty(m')
    && forall k :: At(m', k) == At(m, k) - {id} + if k in keys then {id} else {}
  }

  function Changed(w: World, id: Id, i: Info, topics: Relation, customers: Relation): World {
    World(topics, customers, w.manager, w.infos[id := i])
  }

  lemma SameRegistered(w: World, v: World, id: Id, i: Info)
    requires id in w.infos && i.uniqId == w.infos[id].uniqId && v.manager == w.manager && v.infos == w.infos[id := i]
    ensures forall j :: Registered(v, j) <==> Registered(w, j)
  {
  }

  lemma OneConnectionTopics(w: World, v: World, id: Id, i: Info)
    requires TopicsAgree(w) && Registered(w, id) && i.uniqId == w.infos[id].uniqId && "" !in i.topics
    requires v.manager == w.manager && v.infos == w.infos[id := i] && Rewired(w.topics, v.topics, id, i.topics)
    ensures TopicsAgree(v)
  {
    SameRegistered(w, v, id, i);
    forall t, j
      ensures j in At(v.topics, t) <==> Registered(v, j) && t in v.infos[j].topics
    {
      assert j in At(w.topics, t) <==> Registered(w, j) && t in w.infos[j].topics;
      assert Registered(v, j) <==> Registered(w, j);
    }
  }

  lemma OneConnectionCustomers(w: World, v: World, id: Id, i: Info)
    requires CustomersAgree(w) && Registered(w, id) && i.uniqId == w.infos[id].uniqId
    requires v.manager == w.manager && v.infos == w.infos[id := i]
        && Rewired(w.customers, v.customers, id, {i.customerId} - {""})
    ensures CustomersAgree(v)
  {
    SameRegistered(w, v, id, i);
    forall c, j
      ensures j in At(v.customers, c) <==> Registered(v, j) && v.infos[j].customerId == c && c != ""
    {
      assert j in At(w.customers, c) <==> Registered(w, j) && w.infos[j].customerId == c && c != "";
      assert Registered(v, j) <==> Registered(w, j);
    }
  }

  lemma OneConnectionNames(w: World, v: World, id: Id, i: Info)
    requires Names(w) && Fresh(w) && id in w.infos && i.uniqId == w.infos[id].uniqId && i.joined
    requires v.manager == w.manager && v.infos == w.infos[id := i]
    ensures Names(v) && Fresh(v)
  {
    SameRegistered(w, v, id, i);
  }

  /** A command on one registered connection keeps the agreement when it rewires both indexes to the new info. */
  lemma OneConnection(w: World, id: Id, i: Info, topics: Relation, customers: Relation)
    requires Agreement(w) && Registered(w, id)
    requires i.uniqId == w.infos[id].uniqId && i.joined && "" !in i.topics
    requires Rewired(w.topics, topics, id, i.topics)
    requires Rewired(w.customers, customers, id, {i.customerId} - {""})
    ensures Agreement(Changed(w, id, i, topics, customers))
  {
    var v := Changed(w, id, i, topics, customers);
    OneConnectionNames(w, v, id, i);
    OneConnectionTopics(w, v, id, i);
    OneConnectionCustomers(w, v, id, i);
  }

  lemma TopicsBefore(w: World, id: Id)
    requires TopicsAgree(w) && Registered(w, id)
    ensures forall t :: id in At(w.topics, t) <==> t in w.infos[id].topics
  {
  }

  lemma CustomersBefore(w: World, id: Id)
    requires CustomersAgree(w) && Registered(w, id)
    ensures forall c :: id in At(w.customers, c) <==> w.infos[id].customerId == c && c != ""
  {
  }

  /** Adding keys, removing keys, or replacing all of them. */
  lemma RewireByLink(m: Relation, id: Id, had: set<string>, keys: set<string>)
    requires NoEmpty(m) && forall k :: id in At(m, k) <==> k in had
    ensures Rewired(m, Linked(m, keys, id), id, had + keys)
    ensures Rewired(m, m, id, had)
  {
    forall k { LinkedAt(m, keys, id, k); }
  }

  lemma RewireByUnlink(m: Relation, id: Id, had: set<string>, keys: set<string>)
    requires NoEmpty(m) && forall k :: id in At(m, k) <==> k in had
    ensures Rewired(m, Unlinked(m, keys, id), id, had - keys)
  {
    forall k { UnlinkedAt(m, keys, id, k); }
  }

  lemma RewireByReplace(m: Relation, id: Id, had: set<string>, keys: set<string>)
    requires NoEmpty(m) && forall k :: id in At(m, k) <==> k in had
    ensures Rewired(m, Linked(Unlinked(m, had, id), keys, id), id, keys)
  {
    var u := Unlinked(m, had, id);
    RewireByUnlink(m, id, had, had);
    forall k
      ensures id !in At(u, k)
    {
      assert At(u, k) == At(m, k) - {id} + {};
    }
    RewireByLink(u, id, {}, keys);
    var l := Linked(u, keys, id);
    forall k
      ensures At(l, k) == At(m, k) - {id} + if k in keys then {id} else {}
    {
      assert At(u, k) == At(m, k) - {id} + {};
      assert At(l, k) == At(u, k) - {id} + if k in keys then {id} else {};
    }
  }

  lemma BindIsLink(m: Relation, c: string, id: Id)
    ensures Bind(m, c, id) == Linked(m, {c} - {""}, id)
    ensures Unbind(m, c, id) == Unlinked(m, {c} - {""}, id)
  {
    LinkedBoth(m, {}, {}, id);
    UnlinkedBoth(m, {}, {}, id);
    assert c == "" ==> {c} - {""} == {};
    assert c != "" ==> {c} - {""} == {c};
  }

  lemma TargetIsRegistered(w: World, uniqId: string)
    requires Names(w) && Fresh(w) && Target(w, uniqId).Some?
    ensures Registered(w, Target(w, uniqId).value) && w.infos[Target(w, uniqId).value].joined
  {
  }

  // ---- the commands on one connection ----

  lemma UpdateTopics(w: World, id: Id, topics: seq<string>)
    requires TopicsAgree(w) && NoEmpty(w.topics) && Registered(w, id)
    ensures Rewired(w.topics, w.topics, id, w.infos[id].topics)
    ensures Rewired(w.topics, Linked(Unlinked(w.topics, w.infos[id].topics - {""}, id), Named(topics), id), id,
        Named(topics))
  {
    TopicsBefore(w, id);
    RewireByLink(w.topics, id, w.infos[id].topics, {});
    RewireByReplace(w.topics, id, w.infos[id].topics, Named(topics));
    assert w.infos[id].topics - {""} == w.infos[id].topics;
  }

  lemma UpdateCustomers(w: World, id: Id, customerId: string)
    requires CustomersAgree(w) && NoEmpty(w.customers) && Registered(w, id)
    ensures Rewired(w.customers, w.customers, id, {w.infos[id].customerId} - {""})
    ensures Rewired(w.customers, Bind(Unbind(w.customers, w.infos[id].customerId, id), customerId, id), id,
        {customerId} - {""})
  {
    var before := w.infos[id].customerId;
    CustomersBefore(w, id);
    RewireByLink(w.customers, id, {before} - {""}, {});
    RewireByReplace(w.customers, id, {before} - {""}, {customerId} - {""});
    BindIsLink(w.customers, before, id);
    BindIsLink(Unbind(w.customers, before, id), customerId, id);
  }

  lemma UpdateChanges(w: World, id: Id, uniqId: string, session: string, customerId: string, topics: seq<string>,
      v: World)
    requires Target(w, uniqId) == Some(id) && v == DoUpdate(w, uniqId, session, customerId, topics)
    requires "" !in w.infos[id].topics
    ensures v == Changed(w, id, v.infos[id], v.topics, v.customers)
    ensures v.infos[id].uniqId == w.infos[id].uniqId && v.infos[id].joined == w.infos[id].joined
        && "" !in v.infos[id].topics
    ensures v.infos[id].topics == if topics == [] then w.infos[id].topics else Named(topics)
    ensures v.infos[id].customerId == if customerId == "" then w.infos[id].customerId else customerId
  {
  }

  lemma UpdateKeeps(w: World, uniqId: string, session: string, customerId: string, topics: seq<string>)
    requires Agreement(w)
    ensures Agreement(DoUpdate(w, uniqId, session, customerId, topics))
  {
    match Target(w, uniqId)
    case None =>
    case Some(id) =>
      var v := DoUpdate(w, uniqId, session, customerId, topics);
      TargetIsRegistered(w, uniqId);
      UpdateTopics(w, id, topics);
      UpdateCustomers(w, id, customerId);
      UpdateChanges(w, id, uniqId, session, customerId, topics, v);
      OneConnection(w, id, v.infos[id], v.topics, v.customers);
  }

  lemma DropTopics(w: World, id: Id)
    requires TopicsAgree(w) && NoEmpty(w.topics) && Registered(w, id)
    ensures Rewired(w.topics, w.topics, id, w.infos[id].topics)
    ensures Rewired(w.topics, Unlinked(w.topics, w.infos[id].topics - {""}, id), id, {})
  {
    var had := w.infos[id].topics;
    TopicsBefore(w, id);
    RewireByLink(w.topics, id, had, {});
    RewireByUnlink(w.topics, id, had, had);
    assert had - {""} == had && had - had == {};
  }

  lemma DropCustomer(w: World, id: Id)
    requires CustomersAgree(w) && NoEmpty(w.customers) && Registered(w, id)
    ensures Rewired(w.customers, w.customers, id, {w.infos[id].customerId} - {""})
    ensures Rewired(w.customers, Unbind(w.customers, w.infos[id].customerId, id), id, {""} - {""})
  {
    var c := {w.infos[id].customerId} - {""};
    CustomersBefore(w, id);
    RewireByLink(w.customers, id, c, {});
    RewireByUnlink(w.customers, id, c, c);
    BindIsLink(w.customers, w.infos[id].customerId, id);
    assert c - c == {} && {""} - {""} == {};
  }

  lemma DeleteKeeps(w: World, uniqId: string, delTopic: bool, delSession: bool, delCustomerId: bool)
    requires Agreement(w)
    ensures Agreement(DoDelete(w, uniqId, delTopic, delSession, delCustomerId))
  {
    match Target(w, uniqId)
    case None =>
    case Some(id) =>
      var v := DoDelete(w, uniqId, delTopic, delSession, delCustomerId);
      TargetIsRegistered(w, uniqId);
      DropTopics(w, id);
      DropCustomer(w, id);
      OneConnection(w, id, v.infos[id], v.topics, v.customers);
  }

  lemma SubscribeKeeps(w: World, uniqId: string, topics: seq<string>)
    requires Agreement(w)
    ensures Agreement(DoSubscribe(w, uniqId, topics))
    ensures Agreement(DoUnsubscribe(w, uniqId, topics))
  {
    match Target(w, uniqId)
    case None =>
    case Some(id) =>
      TargetIsRegistered(w, uniqId);
      var i := w.infos[id];
      TopicsBefore(w, id);
      CustomersBefore(w, id);
      RewireByLink(w.topics, id, i.topics, Named(topics));
      RewireByUnlink(w.topics, id, i.topics, Named(topics));
      RewireByLink(w.customers, id, {i.customerId} - {""}, {});
      assert Unsubscribed(i, topics).topics == i.topics - Named(topics);
      OneConnection(w, id, Subscribed(i, topics), Linked(w.topics, Named(topics), id), w.customers);
      OneConnection(w, id, Unsubscribed(i, topics), Unlinked(w.topics, Named(topics), id), w.customers);
  }

  // ---- opening and closing ----

  lemma OpenRegisters(w: World, id: Id, v: World)
    requires Names(w) && id in w.infos && !w.infos[id].joined
    requires v.manager == w.manager[w.infos[id].uniqId := id] && v.infos.Keys == w.infos.Keys
    requires forall j :: j in w.infos ==> v.infos[j].uniqId == w.infos[j].uniqId
    ensures Names(v) && forall j :: Registered(v, j) <==> Registered(w, j) || j == id
  {
  }

  /** Setting flags on one connection changes nothing that is shown. */
  lemma FlagsKeep(w: World, id: Id, joined: bool, closed: bool)
    requires Agreement(w) && id in w.infos && (w.infos[id].joined ==> joined)
    ensures Agreement(w.(infos := w.infos[id := w.infos[id].(joined := joined, closed := closed)]))
  {
    var v := w.(infos := w.infos[id := w.infos[id].(joined := joined, closed := closed)]);
    SameRegistered(w, v, id, v.infos[id]);
    FlagsNames(w, v, id);
    Untouched(w, v);
  }

  lemma FlagsNames(w: World, v: World, id: Id)
    requires Names(w) && Fresh(w) && id in w.infos && v.manager == w.manager && v.infos.Keys == w.infos.Keys
    requires forall j :: Registered(v, j) <==> Registered(w, j)
    requires forall j :: j in w.infos ==>
               v.infos[j] == w.infos[j].(joined := v.infos[j].joined, closed := v.infos[j].closed)
    requires forall j :: j in w.infos && w.infos[j].joined ==> v.infos[j].joined
    ensures Names(v) && Fresh(v)
  {
  }

  lemma OpenKeepsTopics(w: World, v: World, id: Id, customerId: string, keys: set<string>)
    requires TopicsAgree(w) && CustomersAgree(w) && NoEmpty(w.topics) && NoEmpty(w.customers)
    requires id in w.infos && !Registered(w, id) && "" !in keys
    requires forall j :: Registered(v, j) <==> Registered(w, j) || j == id
    requires v.topics == Linked(w.topics, keys, id) && v.customers == Bind(w.customers, customerId, id)
    requires v.infos.Keys == w.infos.Keys && v.infos[id].topics == keys && v.infos[id].customerId == customerId
    requires forall j :: j in w.infos && j != id ==> v.infos[j] == w.infos[j]
    ensures TopicsAgree(v) && CustomersAgree(v) && NoEmpty(v.topics) && NoEmpty(v.customers)
  {
    BindIsLink(w.customers, customerId, id);
    LinkedAll(w.topics, keys, id);
    LinkedAll(w.customers, {customerId} - {""}, id);
    OpenedTopics(w, v, id, keys);
    OpenedCustomers(w, v, id, customerId);
  }

  /** What opening does, field by field. */
  lemma OpenChanges(w: World, v: World, id: Id, session: string, customerId: string, topics: seq<string>)
    requires id in w.infos && !w.infos[id].joined && !w.infos[id].closed
    requires w.infos[id].uniqId != "" && w.infos[id].topics == {} && w.infos[id].customerId == ""
    requires v == DoOpen(w, id, session, customerId, topics)
    ensures v.topics == Linked(w.topics, Named(topics), id) && v.customers == Bind(w.customers, customerId, id)
    ensures v.manager == w.manager[w.infos[id].uniqId := id] && v.infos.Keys == w.infos.Keys
    ensures v.infos[id].topics == Named(topics) && v.infos[id].customerId == customerId && v.infos[id].joined
    ensures forall j :: j in w.infos ==> v.infos[j].uniqId == w.infos[j].uniqId
    ensures forall j :: j in w.infos && j != id ==> v.infos[j] == w.infos[j]
  {
  }

  lemma OpenedKeeps(w: World, v: World, id: Id, customerId: string, keys: set<string>)
    requires Agreement(w) && id in w.infos && !w.infos[id].joined && "" !in keys
    requires v.topics == Linked(w.topics, keys, id) && v.customers == Bind(w.customers, customerId, id)
    requires v.manager == w.manager[w.infos[id].uniqId := id] && v.infos.Keys == w.infos.Keys
    requires v.infos[id].topics == keys && v.infos[id].customerId == customerId && v.infos[id].joined
    requires forall j :: j in w.infos ==> v.infos[j].uniqId == w.infos[j].uniqId
    requires forall j :: j in w.infos && j != id ==> v.infos[j] == w.infos[j]
    ensures Agreement(v)
  {
    OpenRegisters(w, id, v);
    OpenedFresh(w, v, id);
    OpenKeepsTopics(w, v, id, customerId, keys);
  }

  lemma OpenKeeps(w: World, id: Id, session: string, customerId: string, topics: seq<string>)
    requires Agreement(w)
    ensures Agreement(DoOpen(w, id, session, customerId, topics))
  {
    if id in w.infos && !w.infos[id].joined {
      if w.infos[id].closed {
        FlagsKeep(w, id, true, true);
      } else {
        var v := DoOpen(w, id, session, customerId, topics);
        OpenChanges(w, v, id, session, customerId, topics);
        OpenedKeeps(w, v, id, customerId, Named(topics));
      }
    }
  }

  lemma LinkedAll(m: Relation, keys: set<string>, id: Id)
    requires NoEmpty(m)
    ensures NoEmpty(Linked(m, keys, id)) && NoEmpty(Unlinked(m, keys, id))
    ensures forall k :: At(Linked(m, keys, id), k) == At(m, k) + if k in keys then {id} else {}
    ensures forall k :: At(Unlinked(m, keys, id), k) == At(m, k) - if k in keys then {id} else {}
  {
    forall k
      ensures At(Linked(m, keys, id), k) == At(m, k) + if k in keys then {id} else {}
      ensures At(Unlinked(m, keys, id), k) == At(m, k) - if k in keys then {id} else {}
    {
      LinkedAt(m, keys, id, k);
      UnlinkedAt(m, keys, id, k);
    }
    LinkedAt(m, keys, id, "");
    UnlinkedAt(m, keys, id, "");
  }

  /** What the registered connections show did not change. */
  lemma UntouchedTopics(w: World, v: World)
    requires TopicsAgree(w) && v.topics == w.topics
    requires forall j :: Registered(v, j) <==> Registered(w, j)
    requires forall j :: j in w.infos && j in v.infos ==> v.infos[j].topics == w.infos[j].topics
    requires forall j :: j in v.infos && j !in w.infos ==> v.infos[j].topics == {}
    ensures TopicsAgree(v)
  {
    forall t, i
      ensures i in At(v.topics, t) <==> Registered(v, i) && t in v.infos[i].topics
    {
      assert i in At(w.topics, t) <==> Registered(w, i) && t in w.infos[i].topics;
      assert Registered(v, i) <==> Registered(w, i);
    }
  }

  lemma UntouchedCustomers(w: World, v: World)
    requires CustomersAgree(w) && v.customers == w.customers
    requires forall j :: Registered(v, j) <==> Registered(w, j)
    requires forall j :: j in w.infos && j in v.infos ==> v.infos[j].customerId == w.infos[j].customerId
    ensures CustomersAgree(v)
  {
    forall c, i
      ensures i in At(v.customers, c) <==> Registered(v, i) && v.infos[i].customerId == c && c != ""
    {
      assert i in At(w.customers, c) <==> Registered(w, i) && w.infos[i].customerId == c && c != "";
      assert Registered(v, i) <==> Registered(w, i);
    }
  }

  lemma Untouched(w: World, v: World)
    requires TopicsAgree(w) && CustomersAgree(w) && v.topics == w.topics && v.customers == w.customers
    requires forall j :: Registered(v, j) <==> Registered(w, j)
    requires forall j :: j in w.infos && j in v.infos ==>
               v.infos[j].topics == w.infos[j].topics && v.infos[j].customerId == w.infos[j].customerId
    requires forall j :: j in v.infos && j !in w.infos ==> v.infos[j].topics == {}
    ensures TopicsAgree(v) && CustomersAgree(v)
  {
    UntouchedTopics(w, v);
    UntouchedCustomers(w, v);
  }

  lemma OpenedFresh(w: World, v: World, id: Id)
    requires Fresh(w) && id in w.infos && v.infos.Keys == w.infos.Keys && v.infos[id].joined
    requires forall j :: Registered(v, j) <==> Registered(w, j) || j == id
    requires forall j :: j in w.infos && j != id ==> v.infos[j] == w.infos[j]
    ensures Fresh(v)
  {
  }

  lemma OpenedTopics(w: World, v: World, id: Id, keys: set<string>)
    requires TopicsAgree(w) && id in w.infos && !Registered(w, id) && "" !in keys
    requires forall j :: Registered(v, j) <==> Registered(w, j) || j == id
    requires forall k :: At(v.topics, k) == At(w.topics, k) + if k in keys then {id} else {}
    requires v.infos.Keys == w.infos.Keys && v.infos[id].topics == keys
    requires forall j :: j in w.infos && j != id ==> v.infos[j] == w.infos[j]
    ensures TopicsAgree(v)
  {
    forall t, j
      ensures j in At(v.topics, t) <==> Registered(v, j) && t in v.infos[j].topics
    {
      assert j in At(w.topics, t) <==> Registered(w, j) && t in w.infos[j].topics;
      assert Registered(v, j) <==> Registered(w, j) || j == id;
    }
  }

  lemma OpenedCustomers(w: World, v: World, id: Id, customerId: string)
    requires CustomersAgree(w) && id in w.infos && !Registered(w, id)
    requires forall j :: Registered(v, j) <==> Registered(w, j) || j == id
    requires forall k :: At(v.customers, k) == At(w.customers, k) + if k in {customerId} - {""} then {id} else {}
    requires v.infos.Keys == w.infos.Keys && v.infos[id].customerId == customerId
    requires forall j :: j in w.infos && j != id ==> v.infos[j] == w.infos[j]
    ensures CustomersAgree(v)
  {
    forall c, j
      ensures j in At(v.customers, c) <==> Registered(v, j) && v.infos[j].customerId == c && c != ""
    {
      assert j in At(w.customers, c) <==> Registered(w, j) && w.infos[j].customerId == c && c != "";
      assert Registered(v, j) <==> Registered(w, j) || j == id;
    }
  }

  lemma CloseRemoves(w: World, id: Id, v: World)
    requires Names(w) && id in w.infos
    requires v.manager == w.manager - {w.infos[id].uniqId} && v.infos.Keys == w.infos.Keys
    requires forall j :: j in w.infos ==> v.infos[j].uniqId == w.infos[j].uniqId
    ensures Names(v) && forall j :: Registered(v, j) <==> Registered(w, j) && j != id
  {
  }

  lemma ClosedTopics(w: World, v: World, id: Id)
    requires TopicsAgree(w) && id in w.infos && v.infos.Keys == w.infos.Keys
    requires forall j :: Registered(v, j) <==> Registered(w, j) && j != id
    requires forall k :: At(v.topics, k) == At(w.topics, k) - if k in w.infos[id].topics then {id} else {}
    requires forall j :: j in w.infos ==> v.infos[j].topics == w.infos[j].topics
    ensures TopicsAgree(v)
  {
    forall t, i
      ensures i in At(v.topics, t) <==> Registered(v, i) && t in v.infos[i].topics
    {
      assert i in At(w.topics, t) <==> Registered(w, i) && t in w.infos[i].topics;
      assert Registered(v, i) <==> Registered(w, i) && i != id;
    }
  }

  lemma ClosedCustomers(w: World, v: World, id: Id)
    requires CustomersAgree(w) && id in w.infos && v.infos.Keys == w.infos.Keys
    requires forall j :: Registered(v, j) <==> Registered(w, j) && j != id
    requires forall k :: At(v.customers, k) == At(w.customers, k) - if k in {w.infos[id].customerId} - {""} then {id}
        else {}
    requires forall j :: j in w.infos ==> v.infos[j].customerId == w.infos[j].customerId
    ensures CustomersAgree(v)
  {
    forall c, i
      ensures i in At(v.customers, c) <==> Registered(v, i) && v.infos[i].customerId == c && c != ""
    {
      assert i in At(w.customers, c) <==> Registered(w, i) && w.infos[i].customerId == c && c != "";
      assert Registered(v, i) <==> Registered(w, i) && i != id;
    }
  }

  lemma ClosedFresh(w: World, v: World, id: Id)
    requires Fresh(w) && id in w.infos && v.infos.Keys == w.infos.Keys
    requires forall j :: Registered(v, j) <==> Registered(w, j) && j != id
    requires forall j :: j in w.infos ==> v.infos[j] == w.infos[j].(closed := v.infos[j].closed)
    ensures Fresh(v)
  {
  }

  /** Closing keeps the agreement and leaves the connection unregistered. */
  lemma CloseKeeps(w: World, id: Id)
    requires Agreement(w)
    ensures Agreement(DoClose(w, id)) && !Registered(DoClose(w, id), id)
  {
    var v := DoClose(w, id);
    if id in w.infos {
      var i := w.infos[id];
      CloseRemoves(w, id, v);
      ClosedFresh(w, v, id);
      BindIsLink(w.customers, i.customerId, id);
      assert i.topics - {""} == i.topics;
      LinkedAll(w.topics, i.topics, id);
      LinkedAll(w.customers, {i.customerId} - {""}, id);
      ClosedTopics(w, v, id);
      ClosedCustomers(w, v, id);
    }
  }

  /** Who is not registered is in no index. */
  lemma UnregisteredIsNowhere(w: World, id: Id)
    requires Agreement(w) && !Registered(w, id)
    ensures forall k :: id !in At(w.topics, k) && id !in At(w.customers, k)
  {
  }

  // ---- deleting topics ----

  lemma TopicDeleteNames(w: World, topics: seq<string>)
    requires Names(w) && Fresh(w)
    ensures Names(DoTopicDelete(w, topics)) && Fresh(DoTopicDelete(w, topics))
    ensures forall j :: Registered(DoTopicDelete(w, topics), j) <==> Registered(w, j)
  {
  }

  lemma TopicDeletePairs(w: World, topics: seq<string>, t: string, i: Id)
    requires TopicsAgree(w)
    ensures i in At(DoTopicDelete(w, topics).topics, t) <==> i in At(w.topics, t) && t !in Named(topics)
    ensures i in w.infos ==> (t in DoTopicDelete(w, topics).infos[i].topics <==>
              t in w.infos[i].topics && !(t in Named(topics) && i in At(w.topics, t)))
  {
  }

  lemma TopicDeleteTopics(w: World, v: World, topics: seq<string>)
    requires TopicsAgree(w) && v == DoTopicDelete(w, topics)
    requires forall j :: Registered(v, j) <==> Registered(w, j)
    ensures TopicsAgree(v)
  {
    forall t, i
      ensures i in At(v.topics, t) <==> Registered(v, i) && t in v.infos[i].topics
    {
      TopicDeletePairs(w, topics, t, i);
    }
    forall i | i in v.infos
      ensures "" !in v.infos[i].topics
    {
      TopicDeletePairs(w, topics, "", i);
    }
  }

  lemma TopicDeleteCustomers(w: World, topics: seq<string>)
    requires CustomersAgree(w)
    requires forall j :: Registered(DoTopicDelete(w, topics), j) <==> Registered(w, j)
    ensures CustomersAgree(DoTopicDelete(w, topics))
  {
    UntouchedCustomers(w, DoTopicDelete(w, topics));
  }

  lemma TopicDeleteKeeps(w: World, topics: seq<string>)
    requires Agreement(w)
    ensures Agreement(DoTopicDelete(w, topics))
  {
    TopicDeleteNames(w, topics);
    TopicDeleteTopics(w, DoTopicDelete(w, topics), topics);
    TopicDeleteCustomers(w, topics);
  }

  /** Told are exactly the registered connections that had one of the topics, and afterwards none has. */
  lemma NotifiedExactly(w: World, topics: seq<string>, id: Id)
    requires Agreement(w)
    ensures id in Notified(w, topics) <==> Registered(w, id) && w.infos[id].topics * Named(topics) != {}
    ensures id in w.infos && Registered(w, id)
        ==> DoTopicDelete(w, topics).infos[id].topics == w.infos[id].topics - Named(topics)
  {
    var gone := Only(w.topics, Named(topics));
    if id in w.infos {
      forall t
        ensures t in Lost(gone, id) <==> t in Named(topics) && Registered(w, id) && t in w.infos[id].topics
      {
        assert id in At(w.topics, t) <==> t in w.topics && id in w.topics[t];
      }
      if t :| t in w.infos[id].topics * Named(topics) {
        if Registered(w, id) { assert t in Lost(gone, id) * w.infos[id].topics; }
      }
      if t :| t in Lost(gone, id) * w.infos[id].topics {
        assert t in w.infos[id].topics * Named(topics);
      }
    }
  }

  // ---- every run ----

  lemma DoKeeps(w: World, c: Command)
    requires Agreement(w)
    ensures Agreement(Do(w, c))
  {
    match c
    case Accept(id, uniqId) => AcceptKeeps(w, id, uniqId);
    case Open(id, session, customerId, topics) => OpenKeeps(w, id, session, customerId, topics);
    case Update(uniqId, session, customerId, topics) => UpdateKeeps(w, uniqId, session, customerId, topics);
    case Delete(uniqId, delTopic, delSession, delCustomerId) =>
      DeleteKeeps(w, uniqId, delTopic, delSession, delCustomerId);
    case Subscribe(uniqId, topics) => SubscribeKeeps(w, uniqId, topics);
    case Unsubscribe(uniqId, topics) => SubscribeKeeps(w, uniqId, topics);
    case TopicDelete(topics) => TopicDeleteKeeps(w, topics);
    case Flag(id) => if id in w.infos { FlagsKeep(w, id, w.infos[id].joined, true); }
    case Close(id) => CloseKeeps(w, id);
  }

  lemma AcceptNames(w: World, v: World, id: Id, uniqId: string)
    requires Names(w) && Fresh(w) && id !in w.infos && uniqId != ""
    requires forall j :: j in w.infos ==> w.infos[j].uniqId != uniqId
    requires v.manager == w.manager && v.infos == w.infos[id := Info(uniqId, "", "", {}, false, false)]
    ensures Names(v) && Fresh(v) && forall j :: Registered(v, j) <==> Registered(w, j)
  {
  }

  lemma AcceptKeeps(w: World, id: Id, uniqId: string)
    requires Agreement(w)
    ensures Agreement(Do(w, Accept(id, uniqId)))
  {
    var v := Do(w, Accept(id, uniqId));
    if v != w {
      AcceptNames(w, v, id, uniqId);
      Untouched(w, v);
    }
  }

  /** After every run: a registered connection is in the topic index under exactly its topics and in the
      customer index under exactly its customerId; nothing else is in either; no entry is empty. */
  lemma {:induction false} AgreementAlways(commands: seq<Command>)
    ensures Agreement(After(commands))
  {
    if commands != [] {
      AgreementAlways(commands[..|commands| - 1]);
      DoKeeps(After(commands[..|commands| - 1]), commands[|commands| - 1]);
    }
  }

  lemma AfterOneMore(run: seq<Command>, c: Command)
    ensures After(run + [c]) == Do(After(run), c)
  {
    assert (run + [c])[..|run|] == run;
  }

  lemma OneMoreKeepsOut(run: seq<Command>, c: Command, id: Id)
    requires Out(After(run), id)
    ensures Out(After(run + [c]), id)
  {
    AgreementAlways(run);
    StaysOut(After(run), c, id);
    AfterOneMore(run, c);
  }

  lemma ClosePutsOut(run: seq<Command>, id: Id)
    requires id in After(run).infos
    ensures Out(After(run + [Close(id)]), id)
  {
    AgreementAlways(run);
    CloseKeeps(After(run), id);
    AfterOneMore(run, Close(id));
  }

  lemma {:induction false} ClosedStaysUnregistered(before: seq<Command>, id: Id, later: seq<Command>)
    requires id in After(before).infos
    ensures Out(After(before + [Close(id)] + later), id)
  {
    var run := before + [Close(id)];
    if later == [] {
      assert run + later == run;
      ClosePutsOut(before, id);
    } else {
      var n := |later| - 1;
      ClosedStaysUnregistered(before, id, later[..n]);
      OneMoreKeepsOut(run + later[..n], later[n], id);
      assert run + later[..n] + [later[n]] == run + later;
    }
  }

  /** A closed connection stays out of both indexes, whatever commands follow. */
  lemma ClosedForGood(before: seq<Command>, id: Id, later: seq<Command>)
    requires id in After(before).infos
    ensures var w := After(before + [Close(id)] + later);
            !Registered(w, id) && forall k :: id !in At(w.topics, k) && id !in At(w.customers, k)
  {
    ClosedStaysUnregistered(before, id, later);
    AgreementAlways(before + [Close(id)] + later);
    UnregisteredIsNowhere(After(before + [Close(id)] + later), id);
  }

  /** The connection is flagged as closed, and the manager does not know it. */
  predicate Out(w: World, id: Id) {
    id in w.infos && w.infos[id].closed && !Registered(w, id)
  }

  lemma StaysOut(w: World, c: Command, id: Id)
    requires Names(w) && Out(w, id)
    ensures Out(Do(w, c), id)
  {
    match c
    case Accept(j, uniqId) => AcceptStaysOut(w, j, uniqId, id);
    case Open(j, session, customerId, topics) => OpenStaysOut(w, j, session, customerId, topics, id);
    case Update(uniqId, session, customerId, topics) => UpdateStaysOut(w, uniqId, session, customerId, topics, id);
    case Delete(uniqId, delTopic, delSession, delCustomerId) =>
      DeleteStaysOut(w, uniqId, delTopic, delSession, delCustomerId, id);
    case Subscribe(uniqId, topics) => SubscribeStaysOut(w, uniqId, topics, id);
    case Unsubscribe(uniqId, topics) => SubscribeStaysOut(w, uniqId, topics, id);
    case TopicDelete(topics) => TopicDeleteStaysOut(w, topics, id);
    case Flag(j) => FlagStaysOut(w, j, id);
    case Close(j) => CloseStaysOut(w, j, id);
  }

  lemma UpdateStaysOut(w: World, uniqId: string, session: string, customerId: string, topics: seq<string>, id: Id)
    requires Out(w, id)
    ensures Out(DoUpdate(w, uniqId, session, customerId, topics), id)
  {
    TargetedStaysOut(w, uniqId, DoUpdate(w, uniqId, session, customerId, topics), id);
  }

  lemma DeleteStaysOut(w: World, uniqId: string, delTopic: bool, delSession: bool, delCustomerId: bool, id: Id)
    requires Out(w, id)
    ensures Out(DoDelete(w, uniqId, delTopic, delSession, delCustomerId), id)
  {
    TargetedStaysOut(w, uniqId, DoDelete(w, uniqId, delTopic, delSession, delCustomerId), id);
  }

  lemma SubscribeStaysOut(w: World, uniqId: string, topics: seq<string>, id: Id)
    requires Out(w, id)
    ensures Out(DoSubscribe(w, uniqId, topics), id) && Out(DoUnsubscribe(w, uniqId, topics), id)
  {
    TargetedStaysOut(w, uniqId, DoSubscribe(w, uniqId, topics), id);
    TargetedStaysOut(w, uniqId, DoUnsubscribe(w, uniqId, topics), id);
  }

  lemma AcceptStaysOut(w: World, j: Id, uniqId: string, id: Id)
    requires Out(w, id)
    ensures Out(Do(w, Accept(j, uniqId)), id)
  {
  }

  lemma TopicDeleteStaysOut(w: World, topics: seq<string>, id: Id)
    requires Out(w, id)
    ensures Out(DoTopicDelete(w, topics), id)
  {
  }

  lemma FlagStaysOut(w: World, j: Id, id: Id)
    requires Out(w, id)
    ensures Out(Do(w, Flag(j)), id)
  {
  }

  lemma CloseStaysOut(w: World, j: Id, id: Id)
    requires Out(w, id)
    ensures Out(DoClose(w, j), id)
  {
  }

  /** A command on another connection, which keeps the manager. */
  lemma TargetedStaysOut(w: World, uniqId: string, v: World, id: Id)
    requires Out(w, id) && v.manager == w.manager && v.infos.Keys == w.infos.Keys
    requires forall j :: j in w.infos && Target(w, uniqId) != Some(j) ==> v.infos[j] == w.infos[j]
    ensures Out(v, id)
  {
    assert Target(w, uniqId) != Some(id);
  }

  lemma OpenStaysOut(w: World, j: Id, session: string, customerId: string, topics: seq<string>, id: Id)
    requires Names(w) && Out(w, id)
    ensures Out(DoOpen(w, j, session, customerId, topics), id)
  {
    if j in w.infos && j != id {
      assert w.infos[j].uniqId != w.infos[id].uniqId;
    }
  }
}
