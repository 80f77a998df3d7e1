/** What each command does, said by membership: who is in which index entry and what the info says, before and
    after. */
module RegistryEffects {
  import opened ShardedIndex
  import opened RegistrySpec
  import opened RegistryAgreement

  /** The connection `id` answers to `uniqId`: it is registered under it and not flagged as closed. */
  predicate Answers(w: World, uniqId: string, id: Id) {
    && uniqId != "" && uniqId in w.manager && w.manager[uniqId] == id
    && id in w.infos && !w.infos[id].closed
  }


  /** Only the info of `id` may have changed, and in it not the name, the flag or the registration. */
  ghost predicate OnlyInfo(w: World, v: World, id: Id) {
    && id in w.infos && v.infos.Keys == w.infos.Keys && v.manager == w.manager
    && (forall j :: j in w.infos && j != id ==> v.infos[j] == w.infos[j])
    && v.infos[id].uniqId == w.infos[id].uniqId && v.infos[id].closed == w.infos[id].closed
    && v.infos[id].joined == w.infos[id].joined
  }

  /** Connection `id` joined the entries of these keys, and nothing else changed. */
  ghost predicate Joined(m: Relation, m': Relation, id: Id, keys: set<string>) {
    forall k :: At(m', k) == At(m, k) + if k in keys then {id} else {}
  }

  ghost predicate Left(m: Relation, m': Relation, id: Id, keys: set<string>) {
    forall k :: At(m', k) == At(m, k) - if k in keys then {id} else {}
  }

  ghost predicate Moved(m: Relation, m': Relation, id: Id, from: set<string>, to: set<string>) {
    forall k :: At(m', k) == (At(m, k) - if k in from then {id} else {}) + if k in to then {id} else {}
  }

  lemma Links(m: Relation, keys: set<string>, id: Id)
    ensures Joined(m, Linked(m, keys, id), id, keys) && Left(m, Unlinked(m, keys, id), id, keys)
  {
    forall k
      ensures At(Linked(m, keys, id), k) == At(m, k) + if k in keys then {id} else {}
      ensures At(Unlinked(m, keys, id), k) == At(m, k) - if k in keys then {id} else {}
    {
      LinkedAt(m, keys, id, k);
      UnlinkedAt(m, keys, id, k);
    }
  }

  lemma Moves(m: Relation, from: set<string>, to: set<string>, id: Id)
    ensures Moved(m, Linked(Unlinked(m, from, id), to, id), id, from, to)
  {
    Links(m, from, id);
    Links(Unlinked(m, from, id), to, id);
  }

  lemma Binds(m: Relation, c: string, id: Id)
    ensures Joined(m, Bind(m, c, id), id, {c} - {""}) && Left(m, Unbind(m, c, id), id, {c} - {""})
  {
    Links(m, {c}, id);
    assert c != "" ==> {c} - {""} == {c};
  }

  lemma Rebinds(m: Relation, before: string, c: string, id: Id)
    ensures Moved(m, Bind(Unbind(m, before, id), c, id), id, {before} - {""}, {c} - {""})
  {
    Binds(m, before, id);
    Binds(Unbind(m, before, id), c, id);
  }

  // ---- commands of business processes ----

  /** Subscribing: the connection enters the entries of the listed topics, and its info gains exactly these. */
  lemma SubscribeEffect(w: World, uniqId: string, id: Id, list: seq<string>)
    requires Answers(w, uniqId, id)
    ensures var v := Do(w, Subscribe(uniqId, list));
            && (forall t :: At(v.topics, t) == At(w.topics, t) + if t in list && t != "" then {id} else {})
            && OnlyInfo(w, v, id) && v.customers == w.customers
            && (forall t :: t in v.infos[id].topics <==> t in w.infos[id].topics || (t in list && t != ""))
            && v.infos[id].session == w.infos[id].session && v.infos[id].customerId == w.infos[id].customerId
  {
    Links(w.topics, Named(list), id);
  }

  /** Unsubscribing: it leaves the entries of the listed topics, and its info loses exactly these. */
  lemma UnsubscribeEffect(w: World, uniqId: string, id: Id, list: seq<string>)
    requires Answers(w, uniqId, id)
    ensures var v := Do(w, Unsubscribe(uniqId, list));
            && (forall t :: At(v.topics, t) == At(w.topics, t) - if t in list && t != "" then {id} else {})
            && OnlyInfo(w, v, id) && v.customers == w.customers
            && (forall t :: t in v.infos[id].topics <==> t in w.infos[id].topics && t !in list)
            && v.infos[id].session == w.infos[id].session && v.infos[id].customerId == w.infos[id].customerId
  {
    Links(w.topics, Named(list), id);
  }

  /** Deleting: each of topics, session and customerId goes exactly when asked for, from the info ... */
  lemma DeleteEffect(w: World, uniqId: string, id: Id, delTopic: bool, delSession: bool, delCustomerId: bool)
    requires Answers(w, uniqId, id)
    ensures var v := Do(w, Delete(uniqId, delTopic, delSession, delCustomerId));
            var i := w.infos[id];
            && OnlyInfo(w, v, id)
            && v.infos[id].topics == (if delTopic then {} else i.topics)
            && v.infos[id].session == (if delSession then "" else i.session)
            && v.infos[id].customerId == (if delCustomerId then "" else i.customerId)
  {
  }

  /** ... and from the indexes. */
  lemma DeleteInIndexes(w: World, uniqId: string, id: Id, delTopic: bool, delSession: bool, delCustomerId: bool)
    requires Answers(w, uniqId, id)
    ensures var v := Do(w, Delete(uniqId, delTopic, delSession, delCustomerId));
            var i := w.infos[id];
            && (delTopic ==> Left(w.topics, v.topics, id, i.topics - {""}))
            && (!delTopic ==> v.topics == w.topics)
            && (delCustomerId ==> Left(w.customers, v.customers, id, {i.customerId} - {""}))
            && (!delCustomerId ==> v.customers == w.customers)
  {
    Links(w.topics, w.infos[id].topics - {""}, id);
    Binds(w.customers, w.infos[id].customerId, id);
  }

  /** With agreement before, nothing of what was deleted is left in the indexes. */
  lemma DeleteLeavesNothing(w: World, uniqId: string, id: Id, delTopic: bool, delSession: bool, delCustomerId: bool)
    requires Agreement(w) && Answers(w, uniqId, id)
    ensures var v := Do(w, Delete(uniqId, delTopic, delSession, delCustomerId));
            && (delTopic ==> forall t :: id !in At(v.topics, t))
            && (delCustomerId ==> forall c :: id !in At(v.customers, c))
  {
    DeleteKeeps(w, uniqId, delTopic, delSession, delCustomerId);
    DeleteEffect(w, uniqId, id, delTopic, delSession, delCustomerId);
  }

  /** Updating: a session, a customerId or a topic list that is not empty replaces what was there, and an empty one
      changes nothing, in the info ... */
  lemma UpdateEffect(w: World, uniqId: string, id: Id, session: string, customerId: string, list: seq<string>)
    requires Answers(w, uniqId, id)
    ensures var v := Do(w, Update(uniqId, session, customerId, list));
            var i := w.infos[id];
            && OnlyInfo(w, v, id)
            && v.infos[id].session == (if session == "" then i.session else session)
            && v.infos[id].customerId == (if customerId == "" then i.customerId else customerId)
            && forall t :: t in v.infos[id].topics <==> if list == [] then t in i.topics else t in list && t != ""
  {
  }

  /** ... and in the indexes. */
  lemma UpdateInIndexes(w: World, uniqId: string, id: Id, session: string, customerId: string, list: seq<string>)
    requires Answers(w, uniqId, id)
    ensures var v := Do(w, Update(uniqId, session, customerId, list));
            var i := w.infos[id];
            && (list == [] ==> v.topics == w.topics)
            && (list != [] ==> Moved(w.topics, v.topics, id, i.topics - {""}, (set t | t in list) - {""}))
            && (customerId == "" ==> v.customers == w.customers)
            && (customerId != "" ==>
                  Moved(w.customers, v.customers, id, {i.customerId} - {""}, {customerId} - {""}))
  {
    var i := w.infos[id];
    assert Named(list) == (set t | t in list) - {""};
    Moves(w.topics, i.topics - {""}, Named(list), id);
    Rebinds(w.customers, i.customerId, customerId, id);
  }

  /** A command for a uniqId that is empty, unknown or flagged changes nothing. */
  lemma NoEffect(w: World, uniqId: string, c: Command)
    requires (c.Subscribe? || c.Unsubscribe? || c.Update? || c.Delete?) && c.uniqId == uniqId
    requires uniqId == "" || uniqId !in w.manager || w.manager[uniqId] !in w.infos || w.infos[w.manager[uniqId]].closed
    ensures Do(w, c) == w
  {
  }

  /** Deleting topics: their entries go, and so does every listed topic from the info of whoever was in its entry;
      nothing else changes. */
  lemma TopicDeleteEffect(w: World, list: seq<string>)
    ensures var v := Do(w, TopicDelete(list));
            && (forall t :: At(v.topics, t) == if t in list && t != "" then {} else At(w.topics, t))
            && v.customers == w.customers && v.manager == w.manager && v.infos.Keys == w.infos.Keys
            && forall i :: i in w.infos ==>
                 && v.infos[i] == w.infos[i].(topics := v.infos[i].topics)
                 && forall t :: t in v.infos[i].topics <==>
                      t in w.infos[i].topics && !(t in list && t != "" && i in At(w.topics, t))
  {
  }

  // ---- connection callbacks ----

  /** Opening: the connection is registered under its name, and enters the entries of its customerId and topics. */
  lemma OpenEffect(w: World, id: Id, session: string, customerId: string, list: seq<string>)
    requires id in w.infos && !w.infos[id].joined && !w.infos[id].closed && w.infos[id].uniqId != ""
    ensures var v := Do(w, Open(id, session, customerId, list));
            var i := w.infos[id];
            && (forall t :: At(v.topics, t) == At(w.topics, t) + if t in list && t != "" then {id} else {})
            && Joined(w.customers, v.customers, id, {customerId} - {""})
            && v.manager == w.manager[i.uniqId := id]
            && v.infos.Keys == w.infos.Keys && (forall j :: j in w.infos && j != id ==> v.infos[j] == w.infos[j])
            && v.infos[id].uniqId == i.uniqId && v.infos[id].joined && !v.infos[id].closed
            && v.infos[id].session == (if session == "" then i.session else session)
            && v.infos[id].customerId == (if customerId == "" then i.customerId else customerId)
            && (forall t :: t in v.infos[id].topics <==> t in i.topics || (t in list && t != ""))
  {
    Links(w.topics, Named(list), id);
    Binds(w.customers, customerId, id);
  }

  /** A connection that was flagged before it could be registered stays out. */
  lemma OpenTooLate(w: World, id: Id, session: string, customerId: string, list: seq<string>)
    requires id in w.infos && !w.infos[id].joined && w.infos[id].closed
    ensures Do(w, Open(id, session, customerId, list)) == w.(infos := w.infos[id := w.infos[id].(joined := true)])
  {
  }

  /** Closing: the name, the topics and the customerId leave the indexes; the info is flagged and stays otherwise. */
  lemma CloseEffect(w: World, id: Id)
    requires id in w.infos && w.infos[id].uniqId != ""
    ensures var v := Do(w, Close(id));
            var i := w.infos[id];
            && Left(w.topics, v.topics, id, i.topics - {""})
            && Left(w.customers, v.customers, id, {i.customerId} - {""})
            && v.manager == w.manager - {i.uniqId} && v.infos == w.infos[id := i.(closed := true)]
  {
    var i := w.infos[id];
    Links(w.topics, i.topics - {""}, id);
    Binds(w.customers, i.customerId, id);
  }
}
