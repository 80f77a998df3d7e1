/** Connections, the three indexes, and the commands that change both, as functions on one state. */
module RegistrySpec {
  import opened Options
  import opened ShardedIndex

  datatype Info = Info(uniqId: string, customerId: string, session: string, topics: set<string>, closed: bool,
      joined: bool)

  datatype World = World(topics: Relation, customers: Relation, manager: map<string, Id>, infos: map<Id, Info>)

  datatype Command =
    | Accept(id: Id, uniqId: string)
    | Open(id: Id, session: string, customerId: string, topics: seq<string>)
    | Update(uniqId: string, session: string, customerId: string, topics: seq<string>)
    | Delete(uniqId: string, delTopic: bool, delSession: bool, delCustomerId: bool)
    | Subscribe(uniqId: string, topics: seq<string>)
    | Unsubscribe(uniqId: string, topics: seq<string>)
    | TopicDelete(topics: seq<string>)
    | Flag(id: Id)
    | Close(id: Id)

  const EMPTY: World := World(map[], map[], map[], map[])

  predicate Registered(w: World, id: Id) {
    id in w.infos && w.infos[id].uniqId in w.manager && w.manager[w.infos[id].uniqId] == id
  }

  // ---- connection info ----

  function Subscribed(i: Info, topics: seq<string>): Info {
    i.(topics := i.topics + Named(topics))
  }

  function Unsubscribed(i: Info, topics: seq<string>): Info {
    i.(topics := i.topics - set t | t in topics)
  }

  function WithSession(i: Info, session: string): Info {
    if session == "" then i else i.(session := session)
  }

  // ---- commands ----

  /** The connection a command is for: it must be known, and not flagged as closed. */
  function Target(w: World, uniqId: string): Option<Id> {
    if uniqId != "" && uniqId in w.manager && w.manager[uniqId] in w.infos && !w.infos[w.manager[uniqId]].closed
    then Some(w.manager[uniqId]) else None
  }

  function Unbind(customers: Relation, customerId: string, id: Id): Relation {
    if customerId == "" then customers else Unlinked(customers, {customerId}, id)
  }

  function Bind(customers: Relation, customerId: string, id: Id): Relation {
    if customerId == "" then customers else Linked(customers, {customerId}, id)
  }

  /** The info after the callback of an accepted connection has answered. */
  function Greeted(i: Info, session: string, customerId: string, topics: seq<string>): Info {
    Subscribed(Introduced(i, session, customerId), topics)
  }

  function Introduced(i: Info, session: string, customerId: string): Info {
    WithSession(Identified(i, customerId), session)
  }

  /** The tail of `OnWebsocketOpen`, after the callback. */
  function DoOpen(w: World, id: Id, session: string, customerId: string, topics: seq<string>): World {
    if id !in w.infos || w.infos[id].joined then w
    else
      var i := w.infos[id].(joined := true);
      if i.closed then w.(infos := w.infos[id := i])
      else
        World(Linked(w.topics, Named(topics), id),
              Bind(w.customers, customerId, id),
              if i.uniqId == "" then w.manager else w.manager[i.uniqId := id],
              w.infos[id := Greeted(i, session, customerId, topics)])
  }

  /** An update replaces what it names: an empty session, customerId or topic list names nothing. */
  function Updated(i: Info, session: string, customerId: string, topics: seq<string>): Info {
    WithSession(Replaced(Identified(i, customerId), topics), session)
  }

  function Identified(i: Info, customerId: string): Info {
    if customerId == "" then i else i.(customerId := customerId)
  }

  function Replaced(i: Info, topics: seq<string>): Info {
    if topics == [] then i else Subscribed(i.(topics := {}), topics)
  }

  function Rebound(customers: Relation, i: Info, id: Id, customerId: string): Relation {
    if customerId == "" then customers else Bind(Unbind(customers, i.customerId, id), customerId, id)
  }

  function Retopiced(index: Relation, i: Info, id: Id, topics: seq<string>): Relation {
    if topics == [] then index else Linked(Unlinked(index, i.topics - {""}, id), Named(topics), id)
  }

  function DoUpdate(w: World, uniqId: string, session: string, customerId: string, topics: seq<string>): World {
    match Target(w, uniqId)
    case None => w
    case Some(id) =>
      var i := w.infos[id];
      World(Retopiced(w.topics, i, id, topics), Rebound(w.customers, i, id, customerId), w.manager,
            w.infos[id := Updated(i, session, customerId, topics)])
  }

  function Deleted(i: Info, delTopic: bool, delSession: bool, delCustomerId: bool): Info {
    i.(topics := if delTopic then {} else i.topics,
       session := if delSession then "" else i.session,
       customerId := if delCustomerId then "" else i.customerId)
  }

  function DoDelete(w: World, uniqId: string, delTopic: bool, delSession: bool, delCustomerId: bool): World {
    match Target(w, uniqId)
    case None => w
    case Some(id) =>
      var i := w.infos[id];
      World(if delTopic then Unlinked(w.topics, i.topics - {""}, id) else w.topics,
            if delCustomerId then Unbind(w.customers, i.customerId, id) else w.customers,
            w.manager,
            w.infos[id := Deleted(i, delTopic, delSession, delCustomerId)])
  }

  function DoSubscribe(w: World, uniqId: string, topics: seq<string>): World {
    match Target(w, uniqId)
    case None => w
    case Some(id) =>
      w.(infos := w.infos[id := Subscribed(w.infos[id], topics)], topics := Linked(w.topics, Named(topics), id))
  }

  function DoUnsubscribe(w: World, uniqId: string, topics: seq<string>): World {
    match Target(w, uniqId)
    case None => w
    case Some(id) =>
      w.(infos := w.infos[id := Unsubscribed(w.infos[id], topics)], topics := Unlinked(w.topics, Named(topics), id))
  }

  /** The topics that leave connection `id` when the index entries `gone` are deleted. */
  function Lost(gone: Relation, id: Id): set<string> {
    set t | t in gone && id in gone[t]
  }

  function Strip(infos: map<Id, Info>, gone: Relation): map<Id, Info> {
    map id | id in infos :: infos[id].(topics := infos[id].topics - Lost(gone, id))
  }

  /** The connections that really lose a topic. */
  function Told(infos: map<Id, Info>, gone: Relation): set<Id> {
    set id | id in infos && Lost(gone, id) * infos[id].topics != {}
  }

  function DoTopicDelete(w: World, topics: seq<string>): World {
    w.(topics := Without(w.topics, Named(topics)), infos := Strip(w.infos, Only(w.topics, Named(topics))))
  }

  /** Who is told about a topic deletion. */
  function Notified(w: World, topics: seq<string>): set<Id> {
    Told(w.infos, Only(w.topics, Named(topics)))
  }

  /** `OnClose`: the flag first, then `OnWebsocketClose`. */
  function DoClose(w: World, id: Id): World {
    if id !in w.infos then w
    else
      var i := w.infos[id];
      World(Unlinked(w.topics, i.topics - {""}, id),
            Unbind(w.customers, i.customerId, id),
            if i.uniqId == "" then w.manager else w.manager - {i.uniqId},
            w.infos[id := i.(closed := true)])
  }

  function Do(w: World, c: Command): World {
    match c
    case Accept(id, uniqId) =>
      // ids and uniqIds are never given out twice
      if id in w.infos || uniqId == "" || (exists j :: j in w.infos && w.infos[j].uniqId == uniqId) then w
      else w.(infos := w.infos[id := Info(uniqId, "", "", {}, false, false)])
    case Open(id, session, customerId, topics) => DoOpen(w, id, session, customerId, topics)
    case Update(uniqId, session, customerId, topics) => DoUpdate(w, uniqId, session, customerId, topics)
    case Delete(uniqId, delTopic, delSession, delCustomerId) => DoDelete(w, uniqId, delTopic, delSession, delCustomerId)
    case Subscribe(uniqId, topics) => DoSubscribe(w, uniqId, topics)
    case Unsubscribe(uniqId, topics) => DoUnsubscribe(w, uniqId, topics)
    case TopicDelete(topics) => DoTopicDelete(w, topics)
    case Flag(id) => if id in w.infos then w.(infos := w.infos[id := w.infos[id].(closed := true)]) else w
    case Close(id) => DoClose(w, id)
  }

  function After(commands: seq<Command>): World {
    if commands == [] then EMPTY else Do(After(commands[..|commands| - 1]), commands[|commands| - 1])
  }

  // ---- deleting topics one by one ----

  lemma LostMore(gone: Relation, t: string, ids: set<Id>, id: Id, own: set<string>)
    requires t !in gone
    ensures own - Lost(gone[t := ids], id) == own - Lost(gone, id) - Lost(map[t := ids], id)
    ensures Lost(gone[t := ids], id) * own == Lost(gone, id) * own + Lost(map[t := ids], id) * (own - Lost(gone, id))
  {
    assert Lost(gone[t := ids], id) == Lost(gone, id) + Lost(map[t := ids], id);
    assert Lost(map[t := ids], id) !! Lost(gone, id);
  }

  lemma StripMore(infos: map<Id, Info>, gone: Relation, t: string, ids: set<Id>)
    requires t !in gone
    ensures Strip(Strip(infos, gone), map[t := ids]) == Strip(infos, gone[t := ids])
    ensures Told(infos, gone) + Told(Strip(infos, gone), map[t := ids]) == Told(infos, gone[t := ids])
  {
    forall id | id in infos
      ensures Strip(Strip(infos, gone), map[t := ids])[id] == Strip(infos, gone[t := ids])[id]
      ensures id in Told(infos, gone) + Told(Strip(infos, gone), map[t := ids]) <==> id in Told(infos, gone[t := ids])
    {
      LostMore(gone, t, ids, id, infos[id].topics);
    }
  }

  lemma StripNothing(infos: map<Id, Info>, gone: Relation)
    requires forall t :: t in gone ==> gone[t] == {}
    ensures Strip(infos, gone) == infos && Told(infos, gone) == {}
  {
    forall id | id in infos
      ensures Lost(gone, id) == {} && Strip(infos, gone)[id] == infos[id]
    {
      assert infos[id].topics - {} == infos[id].topics;
    }
  }

  lemma StripOne(infos: map<Id, Info>, t: string, ids: set<Id>, x: Id)
    requires x !in ids
    ensures var s := Strip(infos, map[t := ids]);
            && Strip(infos, map[t := ids + {x}])
                == (if x in infos then s[x := s[x].(topics := s[x].topics - {t})] else s)
            && Told(infos, map[t := ids + {x}]) == Told(infos, map[t := ids])
                + (if x in infos && t in s[x].topics then {x} else {})
  {
    forall id | id in infos
      ensures Strip(infos, map[t := ids + {x}])[id]
           == if id == x then infos[x].(topics := infos[x].topics - {t}) else Strip(infos, map[t := ids])[id]
      ensures Strip(infos, map[t := ids])[id].topics == infos[id].topics - if id in ids then {t} else {}
      ensures id in Told(infos, map[t := ids + {x}]) <==>
                id in Told(infos, map[t := ids]) || (id == x && t in infos[x].topics)
    {
      LostOne(t, ids, id);
      LostOne(t, ids + {x}, id);
      StripLess(infos[id].topics, t);
      assert Strip(infos, map[t := ids])[id] == infos[id].(topics := infos[id].topics - Lost(map[t := ids], id));
    }
    if x in infos { assert infos[x].topics - {} == infos[x].topics; }
  }

  lemma LostOne(t: string, ids: set<Id>, id: Id)
    ensures Lost(map[t := ids], id) == if id in ids then {t} else {}
  {
  }

  lemma StripLess(own: set<string>, t: string)
    ensures own - {} == own && ({t} * own != {} <==> t in own)
  {
    if t in own { assert t in {t} * own; }
  }
}
